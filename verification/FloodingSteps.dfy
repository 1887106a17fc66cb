/**
 * Each step of the flooding system keeps the invariant.
 *
 * A step changes one peer, one link or a peer with one of its links. LocalStep and LinkStep carry the
 * invariant over to everything the step leaves alone; what remains for each kind of step is one lemma
 * about the peer that moves (it keeps PeerOk) and one about each link it touches (it keeps EdgeOk),
 * stated over plain values so that no lemma sees the whole system.
 */
module FloodingSteps {
  import opened Wrappers
  import opened Wire
  import opened Graph
  import opened Sums
  import opened Flooding
  import opened FloodingInvariant
  import HopWave
  import Sequences

  // Frames: what a change of one end of a link, or of the link, has to respect

  ghost predicate SameAsTarget(p: PeerState, p': PeerState) {
    && p'.arrival == p.arrival
    && forall x, id, b :: p'.log[Received(x, id, b)] == p.log[Received(x, id, b)]
  }

  lemma TargetFrame(c: Config, x: Node, u: Node, p: PeerState, l: Link, q: PeerState, q': PeerState)
    requires c.protocol.Valid() && EdgeOk(c, x, u, p, l, q)
    requires forall id :: id in q.arrival ==> id in q'.arrival && q'.arrival[id] == q.arrival[id]
    requires forall id :: id in q'.arrival && id !in q.arrival ==> q'.arrival[id].from != Some(x)
    requires forall id, b :: q'.log[Received(x, id, b)] == q.log[Received(x, id, b)]
    ensures EdgeOk(c, x, u, p, l, q')
  {
    forall id ensures q'.log[Received(x, id, false)] == q.log[Received(x, id, false)]
                   && q'.log[Received(x, id, true)] == q.log[Received(x, id, true)] {}
  }

  /** The worker, knowledge and link moves of a sending peer for one neighbour. */
  ghost predicate Balanced(c: Config, v: Node, p: PeerState, l: Link, p': PeerState, l': Link) {
    forall id ::
      var before := SumBy(p.workers, OwedBy(v, id)) + Tally(l, id) + Owed(p', v, id);
      var after := SumBy(p'.workers, OwedBy(v, id)) + Tally(l', id) + Owed(p, v, id);
      after <= before && (FullRelay(c.protocol) ==> after == before)
  }

  lemma LinkLawMoves(c: Config, v: Node, p: PeerState, l: Link, p': PeerState, l': Link)
    requires LinkLaw(c, v, p, l) && Balanced(c, v, p, l, p', l')
    ensures LinkLaw(c, v, p', l')
  {
  }

  /** Only the peer u and links from u change. */
  lemma LocalStep(c: Config, s: State, u: Node, s': State)
    requires c.Valid() && Inv(c, s) && u < |s.peers| == |s'.peers|
    requires s'.peers == s.peers[u := s'.peers[u]] && s'.issued == s.issued
    requires s'.links.Keys == s.links.Keys
    requires forall e :: e in s.links && e.0 != u ==> s'.links[e] == s.links[e]
    requires PeerAt(c, s', u) && SameAsTarget(s.peers[u], s'.peers[u])
    requires forall v: Node {:trigger EdgeAt(c, s', u, v)} :: Adjacent(c.neighbors, u, v) ==> EdgeAt(c, s', u, v)
    ensures Inv(c, s')
  {
    forall x: Node | x < |s'.peers| ensures PeerAt(c, s', x) {
      assert PeerAt(c, s, x);
    }
    forall x: Node, v: Node | Adjacent(c.neighbors, x, v) ensures EdgeAt(c, s', x, v) {
      if x != u {
        assert EdgeAt(c, s, x, v);
        if v == u {
          TargetFrame(c, x, u, s.peers[x], s.links[(x, u)], s.peers[u], s'.peers[u]);
        }
      }
    }
  }

  /** A step of the sender goroutine of one link that neither sends nor receives. */
  lemma LinkStep(c: Config, s: State, u: Node, v: Node, l': Link)
    requires c.Valid() && Inv(c, s) && (u, v) in s.links && u < |s.peers| && v < |s.peers|
    requires EdgeOk(c, u, v, s.peers[u], l', s.peers[v])
    ensures Inv(c, s.SetLink((u, v), l'))
  {
    var s' := s.SetLink((u, v), l');
    forall x: Node | x < |s'.peers| ensures PeerAt(c, s', x) {
      assert PeerAt(c, s, x);
    }
    forall x: Node, y: Node | Adjacent(c.neighbors, x, y) ensures EdgeAt(c, s', x, y) {
      assert EdgeAt(c, s, x, y);
    }
  }

  // Link operations

  lemma PushControlOk(c: Config, u: Node, v: Node, p: PeerState, l: Link, q: PeerState, id: MessageId, capacity: nat)
    requires c.protocol.Valid() && EdgeOk(c, u, v, p, l, q) && id in p.arrival
    ensures EdgeOk(c, u, v, p, PushControl(l, id, capacity), q)
  {
    var l' := PushControl(l, id, capacity);
    forall m ensures Tally(l', m) == Tally(l, m) {}
    assert LinkContents(c, p, l') && WireLaw(u, l', q);
    LinkFromParts(c, u, v, p, l, l', q);
  }

  lemma PushDataTally(l: Link, m: Message, capacity: nat, id: MessageId)
    ensures Tally(PushData(l, m, capacity), id) == Tally(l, id) + Bit(m.id == id)
  {
    SumByAppend(l.queues.data, Data(m), DataFor(id));
  }

  lemma SuppressedTally(l: Link, m: MessageId, id: MessageId)
    ensures Tally(l.Record(Suppressed(m)), id) == Tally(l, id) + Bit(m == id)
  {
  }

  lemma TakeFrameOk(c: Config, u: Node, v: Node, p: PeerState, l: Link, q: PeerState)
    requires c.protocol.Valid() && EdgeOk(c, u, v, p, l, q) && l.hand.Empty? && !l.queues.Empty()
    ensures EdgeOk(c, u, v, p, TakeFrame(l), q)
  {
    var l' := TakeFrame(l);
    forall id ensures Tally(l', id) == Tally(l, id) {
      if l.queues.control != [] {
        assert l'.hand.frame in l.queues.control;
      } else {
        assert l.queues.data[0] == l'.hand.frame;
      }
    }
    assert LinkContents(c, p, l') && WireLaw(u, l', q);
    LinkFromParts(c, u, v, p, l, l', q);
  }

  lemma CheckHandOk(c: Config, u: Node, v: Node, p: PeerState, l: Link, q: PeerState, next: Hand)
    requires c.protocol.Valid() && EdgeOk(c, u, v, p, l, q) && !l.hand.Empty?
    requires !next.Empty? && !next.Written? && next.frame == l.hand.frame && !l.hand.Written?
    ensures EdgeOk(c, u, v, p, CheckHand(c, p, v, l, next), q)
  {
    var l' := CheckHand(c, p, v, l, next);
    forall id ensures Tally(l', id) == Tally(l, id) {}
    if SuppressFrame(c, p, l.hand.frame, v) {
      LinkLawMoves(c, v, p, l, p, l');
    } else {
      LinkFromParts(c, u, v, p, l, l', q);
    }
  }

  lemma LoseOk(c: Config, u: Node, v: Node, p: PeerState, l: Link, q: PeerState, lost: bool)
    requires c.protocol.Valid() && EdgeOk(c, u, v, p, l, q) && l.hand.Drawing?
    ensures EdgeOk(c, u, v, p, Lose(l, lost), q)
  {
    var l' := Lose(l, lost);
    forall id ensures Tally(l', id) == Tally(l, id) {}
    assert LinkContents(c, p, l') && WireLaw(u, l', q);
    LinkFromParts(c, u, v, p, l, l', q);
  }

  /** A link moves on by itself: no frame leaves the tally, and suppression stays sound. */
  lemma LinkFromParts(c: Config, u: Node, v: Node, p: PeerState, l: Link, l': Link, q: PeerState)
    requires c.protocol.Valid() && EdgeOk(c, u, v, p, l, q)
    requires LinkContents(c, p, l') && WireLaw(u, l', q)
    requires forall id :: Tally(l', id) == Tally(l, id)
    requires forall id :: l'.log[Suppressed(id)] == l.log[Suppressed(id)]
    ensures EdgeOk(c, u, v, p, l', q)
  {
    LinkLawMoves(c, v, p, l, p, l');
  }

  lemma WriteWire(u: Node, l: Link, q: PeerState, failed: bool)
    requires WireLaw(u, l, q) && l.hand.Ready?
    ensures WireLaw(u, Write(l, failed), q)
  {
    var l' := Write(l, failed);
    forall id ensures SumBy(l'.wire, DataFor(id)) + q.log[Received(u, id, false)] + q.log[Received(u, id, true)]
                      == l'.log[Sent(id)] + Unrecorded(l', id) {
      SumByAppend(l.wire, l.hand.frame, DataFor(id));
    }
  }

  lemma WriteOk(c: Config, u: Node, v: Node, p: PeerState, l: Link, q: PeerState, failed: bool)
    requires c.protocol.Valid() && EdgeOk(c, u, v, p, l, q) && l.hand.Ready?
    ensures EdgeOk(c, u, v, p, Write(l, failed), q)
  {
    WriteWire(u, l, q, failed);
    assert LinkContents(c, p, Write(l, failed));
    forall id ensures Tally(Write(l, failed), id) == Tally(l, id) {}
    LinkFromParts(c, u, v, p, l, Write(l, failed), q);
  }

  lemma RecordedOk(c: Config, u: Node, v: Node, p: PeerState, l: Link, q: PeerState)
    requires c.protocol.Valid() && EdgeOk(c, u, v, p, l, q) && l.hand.Written?
    ensures EdgeOk(c, u, v, p, Recorded(l), q)
  {
    var l' := Recorded(l);
    assert LinkContents(c, p, l');
    forall id ensures Tally(l', id) == Tally(l, id) {}
    forall id ensures l'.log[Sent(id)] == l.log[Sent(id)] + Unrecorded(l, id) {}
    LinkFromParts(c, u, v, p, l, l', q);
  }

  lemma SenderSteps(c: Config, s: State, step: Step)
    requires c.Valid() && Inv(c, s) && Enabled(c, s, step)
    requires step.DequeueFrame? || step.FirstCheck? || step.DrawLoss? || step.SecondCheck? || step.WriteFrame?
      || step.RecordWrite?
    ensures Inv(c, Apply(c, s, step))
  {
    var u, v := step.u, step.v;
    var l := s.links[(u, v)];
    assert EdgeAt(c, s, u, v);
    match step {
      case DequeueFrame(_, _) => TakeFrameOk(c, u, v, s.peers[u], l, s.peers[v]);
      case FirstCheck(_, _) => CheckHandOk(c, u, v, s.peers[u], l, s.peers[v], Drawing(l.hand.frame));
      case DrawLoss(_, _, lost) => LoseOk(c, u, v, s.peers[u], l, s.peers[v], lost);
      case SecondCheck(_, _) => CheckHandOk(c, u, v, s.peers[u], l, s.peers[v], Ready(l.hand.frame));
      case WriteFrame(_, _, failed) => WriteOk(c, u, v, s.peers[u], l, s.peers[v], failed);
      case RecordWrite(_, _) => RecordedOk(c, u, v, s.peers[u], l, s.peers[v]);
    }
    LinkStep(c, s, u, v, Apply(c, s, step).links[(u, v)]);
  }

  // Worker moves after forwarding has begun

  lemma HeadCount(s: seq<Node>)
    requires s != []
    ensures forall v :: multiset(s)[v] == Bit(v == s[0]) + multiset(s[1..])[v]
  {
    assert s == [s[0]] + s[1..];
  }

  lemma {:induction false} KeepCount(eligible: seq<Node>, chosen: set<Node>, v: Node)
    ensures multiset(Keep(eligible, chosen))[v] == if v in chosen then multiset(eligible)[v] else 0
  {
    if eligible != [] {
      KeepCount(eligible[1..], chosen, v);
      HeadCount(eligible);
      var rest := Keep(eligible[1..], chosen);
      assert eligible[0] in chosen ==> Keep(eligible, chosen)[1..] == rest;
    }
  }

  lemma WorkerCopies(p: PeerState, w: nat, worker: Worker)
    requires OneCopy(p) && w < |p.workers| && !p.workers[w].Delaying? && !worker.Delaying?
    ensures OneCopy(SetWorker(p, w, worker))
  {
    var p' := SetWorker(p, w, worker);
    forall id ensures CopiesAt(p', id) == CopiesAt(p, id) {
      SumByUpdate(p.workers, w, worker, DelayFor(id));
    }
    assert p'.known == p.known;
  }

  lemma WorkerPeerOk(c: Config, u: Node, p: PeerState, w: nat, worker: Worker)
    requires c.protocol.Valid() && u < |c.neighbors| == |c.workers| && PeerOk(c, u, p) && w < |p.workers|
    requires !p.workers[w].Delaying? && !worker.Delaying? && WorkerOk(c, u, p, worker)
    ensures PeerOk(c, u, SetWorker(p, w, worker))
  {
    var p' := SetWorker(p, w, worker);
    WorkerCopies(p, w, worker);
    ContentsKept(c, u, p, p');
    forall x | x in p'.workers ensures WorkerOk(c, u, p', x) {
      assert x == worker || x in p.workers;
    }
  }

  lemma WorkerEdgeOk(c: Config, u: Node, v: Node, p: PeerState, w: nat, worker: Worker, l: Link, l': Link, q: PeerState)
    requires c.protocol.Valid() && EdgeOk(c, u, v, p, l, q) && w < |p.workers|
    requires LinkContents(c, p, l') && l'.wire == l.wire && l'.hand == l.hand
    requires forall id :: l'.log[Sent(id)] == l.log[Sent(id)]
    requires forall id ::
      && WorkerOwes(worker, v, id) + Tally(l', id) <= WorkerOwes(p.workers[w], v, id) + Tally(l, id)
      && (FullRelay(c.protocol) ==>
           WorkerOwes(worker, v, id) + Tally(l', id) == WorkerOwes(p.workers[w], v, id) + Tally(l, id))
    requires worker.Deciding? && v in worker.suppressed ==> worker.item.message.id in q.arrival
    requires forall id :: l'.log[Suppressed(id)] > 0 ==> id in q.arrival
    ensures EdgeOk(c, u, v, SetWorker(p, w, worker), l', q)
  {
    var p' := SetWorker(p, w, worker);
    assert Balanced(c, v, p, l, p', l') by {
      forall id ensures SumBy(p'.workers, OwedBy(v, id)) + WorkerOwes(p.workers[w], v, id)
                        == SumBy(p.workers, OwedBy(v, id)) + WorkerOwes(worker, v, id) {
        SumByUpdate(p.workers, w, worker, OwedBy(v, id));
      }
    }
    LinkLawMoves(c, v, p, l, p', l');
    forall x | x in p'.workers && x.Deciding? && v in x.suppressed ensures x.item.message.id in q.arrival {
      assert x == worker || x in p.workers;
    }
  }

  /** The edge u-v with another state of the peer u. */
  ghost predicate EdgeWith(c: Config, s: State, u: Node, v: Node, p: PeerState)
    requires c.Valid()
  {
    v < |s.peers| && (u, v) in s.links && EdgeOk(c, u, v, p, s.links[(u, v)], s.peers[v])
  }

  lemma WorkerLinkParts(c: Config, s: State, u: Node, p': PeerState, v0: Node, l': Link)
    requires c.Valid() && Inv(c, s) && LinkAt(s, u, v0) && PeerOk(c, u, p') && SameAsTarget(s.peers[u], p')
    requires EdgeOk(c, u, v0, p', l', s.peers[v0])
    requires forall v: Node {:trigger EdgeWith(c, s, u, v, p')} ::
      Adjacent(c.neighbors, u, v) && v != v0 ==> EdgeWith(c, s, u, v, p')
    ensures Inv(c, s.SetPeer(u, p').SetLink((u, v0), l'))
  {
    var s' := s.SetPeer(u, p').SetLink((u, v0), l');
    forall v: Node | Adjacent(c.neighbors, u, v) ensures EdgeAt(c, s', u, v) {
      assert EdgeAt(c, s, u, v);
      if v != v0 {
        assert EdgeWith(c, s, u, v, p');
      }
    }
    LocalStep(c, s, u, s');
  }

  /** A worker of u moves on together with the link to v0. */
  lemma WorkerLinkStep(c: Config, s: State, u: Node, w: nat, worker: Worker, v0: Node, l': Link)
    requires c.Valid() && Inv(c, s) && WorkerAt(s, u, w) && LinkAt(s, u, v0)
    requires !s.peers[u].workers[w].Delaying? && !worker.Delaying? && WorkerOk(c, u, s.peers[u], worker)
    requires EdgeOk(c, u, v0, SetWorker(s.peers[u], w, worker), l', s.peers[v0])
    requires forall v: Node {:trigger EdgeWith(c, s, u, v, SetWorker(s.peers[u], w, worker))} ::
      Adjacent(c.neighbors, u, v) && v != v0 ==> EdgeWith(c, s, u, v, SetWorker(s.peers[u], w, worker))
    ensures Inv(c, s.SetPeer(u, SetWorker(s.peers[u], w, worker)).SetLink((u, v0), l'))
  {
    assert PeerAt(c, s, u);
    WorkerPeerOk(c, u, s.peers[u], w, worker);
    WorkerLinkParts(c, s, u, SetWorker(s.peers[u], w, worker), v0, l');
  }

  lemma WorkerOf(c: Config, s: State, u: Node, w: nat)
    requires c.Valid() && Inv(c, s) && WorkerAt(s, u, w)
    ensures WorkerOk(c, u, s.peers[u], s.peers[u].workers[w])
  {
    assert PeerAt(c, s, u);
    assert s.peers[u].workers[w] in s.peers[u].workers;
  }

  lemma DecideOwes(worker: Worker, l: Link, v: Node, id: MessageId)
    requires worker.Deciding? && worker.todo != []
    ensures
      var (next, l') := Decide(worker, l);
      && (v != worker.todo[0] ==> WorkerOwes(next, v, id) == WorkerOwes(worker, v, id))
      && (v == worker.todo[0] ==>
           WorkerOwes(next, v, id) + Tally(l', id) == WorkerOwes(worker, v, id) + Tally(l, id))
  {
    HeadCount(worker.todo);
    SuppressedTally(l, worker.item.message.id, id);
  }

  /** The edge worked on; other edges of u see the worker alone change. */
  lemma DecideEdge(c: Config, u: Node, v: Node, p: PeerState, w: nat, l: Link, q: PeerState)
    requires c.protocol.Valid() && EdgeOk(c, u, v, p, l, q)
    requires w < |p.workers| && p.workers[w].Deciding? && p.workers[w].todo != []
    requires u < |c.neighbors| && WorkerOk(c, u, p, p.workers[w])
    ensures
      var (next, l') := Decide(p.workers[w], l);
      EdgeOk(c, u, v, SetWorker(p, w, next), if v == p.workers[w].todo[0] then l' else l, q)
  {
    var worker := p.workers[w];
    var (next, l0) := Decide(worker, l);
    var l' := if v == worker.todo[0] then l0 else l;
    assert worker in p.workers;
    forall id ensures WorkerOwes(next, v, id) + Tally(l', id) == WorkerOwes(worker, v, id) + Tally(l, id) {
      DecideOwes(worker, l, v, id);
    }
    WorkerEdgeOk(c, u, v, p, w, next, l, l', q);
  }

  lemma DecideStep(c: Config, s: State, u: Node, w: nat)
    requires c.Valid() && Inv(c, s) && Enabled(c, s, DecideNext(u, w))
    ensures Inv(c, Apply(c, s, DecideNext(u, w)))
  {
    var v0 := s.peers[u].workers[w].todo[0];
    var (next, l') := Decide(s.peers[u].workers[w], s.links[(u, v0)]);
    WorkerOf(c, s, u, w);
    assert EdgeAt(c, s, u, v0);
    DecideEdge(c, u, v0, s.peers[u], w, s.links[(u, v0)], s.peers[v0]);
    forall v: Node | Adjacent(c.neighbors, u, v) && v != v0
      ensures EdgeWith(c, s, u, v, SetWorker(s.peers[u], w, next))
    {
      assert EdgeAt(c, s, u, v);
      DecideEdge(c, u, v, s.peers[u], w, s.links[(u, v)], s.peers[v]);
    }
    WorkerLinkStep(c, s, u, w, next, v0, l');
  }

  lemma CheckOwes(c: Config, p: PeerState, worker: Worker, l: Link, v: Node, id: MessageId)
    requires worker.Relaying? && worker.targets != []
    ensures
      var (next, l') := Check(c, p, worker, l);
      && (v != worker.targets[0] ==> WorkerOwes(next, v, id) == WorkerOwes(worker, v, id))
      && (v == worker.targets[0] ==>
           WorkerOwes(next, v, id) + Tally(l', id) == WorkerOwes(worker, v, id) + Tally(l, id))
  {
    HeadCount(worker.targets);
    SuppressedTally(l, worker.outgoing.id, id);
  }

  lemma CheckEdge(c: Config, u: Node, v: Node, p: PeerState, w: nat, l: Link, q: PeerState)
    requires c.protocol.Valid() && EdgeOk(c, u, v, p, l, q)
    requires w < |p.workers| && p.workers[w].Relaying? && p.workers[w].targets != []
    requires u < |c.neighbors| && WorkerOk(c, u, p, p.workers[w])
    ensures
      var (next, l') := Check(c, p, p.workers[w], l);
      EdgeOk(c, u, v, SetWorker(p, w, next), if v == p.workers[w].targets[0] then l' else l, q)
  {
    var worker := p.workers[w];
    var (next, l0) := Check(c, p, worker, l);
    var l' := if v == worker.targets[0] then l0 else l;
    forall id ensures WorkerOwes(next, v, id) + Tally(l', id) == WorkerOwes(worker, v, id) + Tally(l, id) {
      CheckOwes(c, p, worker, l, v, id);
    }
    assert LinkContents(c, p, l');
    assert l'.wire == l.wire;
    WorkerEdgeOk(c, u, v, p, w, next, l, l', q);
  }

  lemma CheckStep(c: Config, s: State, u: Node, w: nat)
    requires c.Valid() && Inv(c, s) && Enabled(c, s, CheckTarget(u, w))
    ensures Inv(c, Apply(c, s, CheckTarget(u, w)))
  {
    var v0 := s.peers[u].workers[w].targets[0];
    var (next, l') := Check(c, s.peers[u], s.peers[u].workers[w], s.links[(u, v0)]);
    WorkerOf(c, s, u, w);
    assert EdgeAt(c, s, u, v0);
    CheckEdge(c, u, v0, s.peers[u], w, s.links[(u, v0)], s.peers[v0]);
    forall v: Node | Adjacent(c.neighbors, u, v) && v != v0
      ensures EdgeWith(c, s, u, v, SetWorker(s.peers[u], w, next))
    {
      assert EdgeAt(c, s, u, v);
      CheckEdge(c, u, v, s.peers[u], w, s.links[(u, v)], s.peers[v]);
    }
    WorkerLinkStep(c, s, u, w, next, v0, l');
  }

  lemma PushEdge(c: Config, u: Node, v: Node, p: PeerState, w: nat, l: Link, q: PeerState, capacity: nat)
    requires c.protocol.Valid() && EdgeOk(c, u, v, p, l, q)
    requires w < |p.workers| && p.workers[w].Pushing?
    requires u < |c.neighbors| && WorkerOk(c, u, p, p.workers[w])
    ensures
      var worker := p.workers[w];
      var next := Relaying(worker.outgoing, worker.targets);
      EdgeOk(c, u, v, SetWorker(p, w, next),
             if v == worker.target then PushData(l, worker.outgoing, capacity) else l, q)
  {
    var worker := p.workers[w];
    var next := Relaying(worker.outgoing, worker.targets);
    var l' := if v == worker.target then PushData(l, worker.outgoing, capacity) else l;
    forall id ensures WorkerOwes(next, v, id) + Tally(l', id) == WorkerOwes(worker, v, id) + Tally(l, id) {
      PushDataTally(l, worker.outgoing, capacity, id);
    }
    WorkerEdgeOk(c, u, v, p, w, next, l, l', q);
  }

  lemma PushStep(c: Config, s: State, u: Node, w: nat)
    requires c.Valid() && Inv(c, s) && Enabled(c, s, PushTarget(u, w))
    ensures Inv(c, Apply(c, s, PushTarget(u, w)))
  {
    var v0 := s.peers[u].workers[w].target;
    var (next, l') := PushFrame(c, u, s.peers[u].workers[w], s.links[(u, v0)]);
    WorkerOf(c, s, u, w);
    assert EdgeAt(c, s, u, v0);
    PushEdge(c, u, v0, s.peers[u], w, s.links[(u, v0)], s.peers[v0], c.edges[(u, v0)].capacity);
    forall v: Node | Adjacent(c.neighbors, u, v) && v != v0
      ensures EdgeWith(c, s, u, v, SetWorker(s.peers[u], w, next))
    {
      assert EdgeAt(c, s, u, v);
      PushEdge(c, u, v, s.peers[u], w, s.links[(u, v)], s.peers[v], c.edges[(u, v0)].capacity);
    }
    WorkerLinkStep(c, s, u, w, next, v0, l');
  }

  /** A worker of u moves on and no link changes. */
  lemma QuietWorkerStep(c: Config, s: State, u: Node, w: nat, worker: Worker)
    requires c.Valid() && Inv(c, s) && WorkerAt(s, u, w)
    requires !s.peers[u].workers[w].Delaying? && !worker.Delaying? && !worker.Deciding?
    requires WorkerOk(c, u, s.peers[u], worker)
    requires forall v, id ::
      && WorkerOwes(worker, v, id) <= WorkerOwes(s.peers[u].workers[w], v, id)
      && (FullRelay(c.protocol) ==> WorkerOwes(worker, v, id) == WorkerOwes(s.peers[u].workers[w], v, id))
    ensures Inv(c, s.SetPeer(u, SetWorker(s.peers[u], w, worker)))
  {
    var s' := s.SetPeer(u, SetWorker(s.peers[u], w, worker));
    assert PeerAt(c, s, u);
    WorkerPeerOk(c, u, s.peers[u], w, worker);
    forall v: Node | Adjacent(c.neighbors, u, v) ensures EdgeAt(c, s', u, v) {
      assert EdgeAt(c, s, u, v);
      WorkerEdgeOk(c, u, v, s.peers[u], w, worker, s.links[(u, v)], s.links[(u, v)], s.peers[v]);
    }
    LocalStep(c, s, u, s');
  }

  lemma OutgoingOk(c: Config, u: Node, p: PeerState, item: Item)
    requires c.Valid() && u < |c.neighbors| && PeerOk(c, u, p) && ItemOk(c, p, item)
    ensures RelayOk(c, p, Outgoing(c.protocol, item))
  {
    var depth := p.arrival[item.message.id].depth;
    HopWave.ModStep(depth, UINT32);
    assert ArrivalOk(c, u, p, item.message.id);
    if c.protocol.HopWave? {
      HopWave.RelayFollowsDepth(c.protocol, depth);
    }
  }

  lemma {:induction false} ElementsBound(s: seq<Node>)
    ensures |Sequences.Elements(s)| <= |s|
  {
    if s != [] {
      ElementsBound(s[1..]);
      assert s == [s[0]] + s[1..];
      assert Sequences.Elements(s) == {s[0]} + Sequences.Elements(s[1..]);
    }
  }

  lemma {:induction false} SubsetOfFullSize(a: set<Node>, b: set<Node>)
    requires a <= b && |a| >= |b|
    ensures a == b
  {
    if v :| v in b && v !in a {
      Sequences.SubsetSize(a, b - {v});
    }
  }

  /** In a full relay every eligible neighbour is chosen. */
  lemma FullChoice(protocol: Protocol, item: Item, eligible: seq<Node>, chosen: set<Node>)
    requires protocol.Valid() && TargetsAllowed(protocol, item, eligible, chosen) && FullRelay(protocol)
    ensures chosen == Sequences.Elements(eligible)
  {
    if !Relay(protocol, item).crest {
      ElementsBound(eligible);
      assert HopWave.TargetCount(protocol.f, |eligible|) == |eligible|;
      SubsetOfFullSize(chosen, Sequences.Elements(eligible));
    }
  }

  lemma SelectOwes(c: Config, item: Item, worker: Worker, chosen: set<Node>, v: Node, id: MessageId)
    requires c.Valid() && worker.Deciding? && worker.item == item && worker.todo == []
    requires TargetsAllowed(c.protocol, item, worker.eligible, chosen)
    ensures
      var next := Relaying(Outgoing(c.protocol, item), Keep(worker.eligible, chosen));
      && WorkerOwes(next, v, id) <= WorkerOwes(worker, v, id)
      && (FullRelay(c.protocol) ==> WorkerOwes(next, v, id) == WorkerOwes(worker, v, id))
  {
    KeepCount(worker.eligible, chosen, v);
    if FullRelay(c.protocol) {
      FullChoice(c.protocol, item, worker.eligible, chosen);
    }
  }

  lemma SelectStep(c: Config, s: State, u: Node, w: nat, chosen: set<Node>)
    requires c.Valid() && Inv(c, s) && Enabled(c, s, SelectTargets(u, w, chosen))
    ensures Inv(c, Apply(c, s, SelectTargets(u, w, chosen)))
  {
    var p := s.peers[u];
    var worker := p.workers[w];
    var next := Relaying(Outgoing(c.protocol, worker.item), Keep(worker.eligible, chosen));
    assert PeerAt(c, s, u);
    assert worker in p.workers;
    assert WorkerOk(c, u, p, worker);
    OutgoingOk(c, u, p, worker.item);
    forall v, id
      ensures WorkerOwes(next, v, id) <= WorkerOwes(worker, v, id)
      ensures FullRelay(c.protocol) ==> WorkerOwes(next, v, id) == WorkerOwes(worker, v, id)
    {
      SelectOwes(c, worker.item, worker, chosen, v, id);
    }
    QuietWorkerStep(c, s, u, w, next);
  }

  lemma FinishStep(c: Config, s: State, u: Node, w: nat)
    requires c.Valid() && Inv(c, s) && Enabled(c, s, FinishItem(u, w))
    ensures Inv(c, Apply(c, s, FinishItem(u, w)))
  {
    QuietWorkerStep(c, s, u, w, Idle);
  }

  // Handlers, the process queue and the start of forwarding

  lemma PeerStep(c: Config, s: State, u: Node, p': PeerState)
    requires c.Valid() && Inv(c, s) && u < |s.peers|
    requires PeerOk(c, u, p') && SameAsTarget(s.peers[u], p')
    requires forall v: Node {:trigger EdgeWith(c, s, u, v, p')} ::
      Adjacent(c.neighbors, u, v) ==> EdgeWith(c, s, u, v, p')
    ensures Inv(c, s.SetPeer(u, p'))
  {
    var s' := s.SetPeer(u, p');
    forall v: Node | Adjacent(c.neighbors, u, v) ensures EdgeAt(c, s', u, v) {
      assert EdgeAt(c, s, u, v);
      assert EdgeWith(c, s, u, v, p');
    }
    LocalStep(c, s, u, s');
  }

  lemma SourceSame(c: Config, u: Node, v: Node, p: PeerState, p': PeerState, l: Link, q: PeerState)
    requires c.protocol.Valid() && EdgeOk(c, u, v, p, l, q)
    requires p'.workers == p.workers && p'.known == p.known && p'.arrival == p.arrival
    ensures EdgeOk(c, u, v, p', l, q)
  {
    LinkLawMoves(c, v, p, l, p', l);
  }

  /** A peer changes in its handlers, its queue or its log alone. */
  lemma SameSourceStep(c: Config, s: State, u: Node, p': PeerState)
    requires c.Valid() && Inv(c, s) && u < |s.peers|
    requires PeerOk(c, u, p') && SameAsTarget(s.peers[u], p')
    requires p'.workers == s.peers[u].workers && p'.known == s.peers[u].known
    ensures Inv(c, s.SetPeer(u, p'))
  {
    forall v: Node | Adjacent(c.neighbors, u, v) ensures EdgeWith(c, s, u, v, p') {
      assert EdgeAt(c, s, u, v);
      SourceSame(c, u, v, s.peers[u], p', s.links[(u, v)], s.peers[v]);
    }
    PeerStep(c, s, u, p');
  }

  lemma BroadcastCopies(p: PeerState, k: nat, h': Handler)
    requires OneCopy(p) && k < |p.handlers| && h'.item == p.handlers[k].item
    ensures OneCopy(p.(handlers := p.handlers[k := h']))
  {
    var p' := p.(handlers := p.handlers[k := h']);
    forall id ensures CopiesAt(p', id) == CopiesAt(p, id) {
      SumByUpdate(p.handlers, k, h', HandlerFor(id));
    }
    assert p'.known == p.known;
  }

  lemma BroadcastPeer(c: Config, u: Node, p: PeerState, k: nat)
    requires c.protocol.Valid() && u < |c.neighbors| == |c.workers| && PeerOk(c, u, p)
    requires k < |p.handlers| && p.handlers[k].announce != []
    ensures
      var h := p.handlers[k];
      PeerOk(c, u, p.(handlers := p.handlers[k := h.(announce := h.announce[1..])]))
  {
    var h := p.handlers[k];
    var h' := h.(announce := h.announce[1..]);
    var p' := p.(handlers := p.handlers[k := h']);
    assert h in p.handlers;
    BroadcastCopies(p, k, h');
    ContentsKept(c, u, p, p');
    forall x | x in p'.handlers ensures x == h' || x in p.handlers {}
    assert HistoryOk(c, u, p') by {
      forall id | id in p.arrival ensures ArrivalOk(c, u, p', id) {
        assert ArrivalOk(c, u, p, id);
      }
    }
  }

  lemma BroadcastStep(c: Config, s: State, u: Node, k: nat)
    requires c.Valid() && Inv(c, s) && Enabled(c, s, BroadcastNext(u, k))
    ensures Inv(c, Apply(c, s, BroadcastNext(u, k)))
  {
    var s' := Apply(c, s, BroadcastNext(u, k));
    var p := s.peers[u];
    var h := p.handlers[k];
    var v0 := h.announce[0];
    assert PeerAt(c, s, u);
    assert h in p.handlers;
    BroadcastPeer(c, u, p, k);
    var p' := s'.peers[u];
    SameSourceStep(c, s, u, p');
    var t := s.SetPeer(u, p');
    assert EdgeAt(c, t, u, v0);
    PushControlOk(c, u, v0, p', t.links[(u, v0)], t.peers[v0], h.item.message.id, c.edges[(u, v0)].capacity);
    LinkStep(c, t, u, v0, s'.links[(u, v0)]);
  }

  /** What is held for a peer stays in order when its history only grows. */
  lemma ContentsKept(c: Config, u: Node, p: PeerState, p': PeerState)
    requires c.protocol.Valid() && u < |c.neighbors| && ContentsOk(c, u, p)
    requires forall id :: id in p.arrival ==> id in p'.arrival && p'.arrival[id] == p.arrival[id]
    requires forall id :: Started(p, id) ==> Started(p', id)
    ensures forall h :: h in p.handlers ==> ItemOk(c, p', h.item) && Among(h.announce, c.neighbors[u])
    ensures forall item :: item in p.queue ==> ItemOk(c, p', item)
    ensures forall w :: w in p.workers ==> WorkerOk(c, u, p', w)
  {
    forall w | w in p.workers ensures WorkerOk(c, u, p', w) {
      assert WorkerOk(c, u, p, w);
    }
  }

  lemma AdmitCopies(p: PeerState, k: nat, capacity: nat)
    requires OneCopy(p) && k < |p.handlers|
    ensures OneCopy(Admit(p, k, capacity))
  {
    var p' := Admit(p, k, capacity);
    var item := p.handlers[k].item;
    forall id ensures CopiesAt(p', id) == CopiesAt(p, id) {
      SumByRemove(p.handlers, k, HandlerFor(id));
      SumByAppend(p.queue, item, ItemFor(id));
    }
    assert p'.known == p.known;
  }

  lemma AdmitContents(c: Config, u: Node, p: PeerState, k: nat, capacity: nat)
    requires c.protocol.Valid() && u < |c.neighbors| && ContentsOk(c, u, p) && k < |p.handlers|
    ensures ContentsOk(c, u, Admit(p, k, capacity))
  {
    var p' := Admit(p, k, capacity);
    var item := p.handlers[k].item;
    assert p.handlers[k] in p.handlers;
    ContentsKept(c, u, p, p');
    forall x | x in p'.handlers ensures x in p.handlers {}
    forall x | x in p'.queue ensures x == item || x in p.queue {}
  }

  lemma AdmitHistory(c: Config, u: Node, p: PeerState, k: nat, capacity: nat)
    requires c.protocol.Valid() && u < |c.neighbors| == |c.workers| && HistoryOk(c, u, p) && KnowledgeOk(c, u, p)
    requires k < |p.handlers|
    ensures HistoryOk(c, u, Admit(p, k, capacity)) && KnowledgeOk(c, u, Admit(p, k, capacity))
  {
    forall id | id in p.arrival ensures ArrivalOk(c, u, Admit(p, k, capacity), id) {
      assert ArrivalOk(c, u, p, id);
    }
  }

  lemma AdmitPeer(c: Config, u: Node, p: PeerState, k: nat, capacity: nat)
    requires c.protocol.Valid() && u < |c.neighbors| == |c.workers| && PeerOk(c, u, p) && k < |p.handlers|
    ensures PeerOk(c, u, Admit(p, k, capacity))
  {
    AdmitContents(c, u, p, k, capacity);
    AdmitCopies(p, k, capacity);
    AdmitHistory(c, u, p, k, capacity);
  }

  lemma AdmitKeeps(p: PeerState, k: nat, capacity: nat)
    requires k < |p.handlers|
    ensures
      var p' := Admit(p, k, capacity);
      SameAsTarget(p, p') && p'.workers == p.workers && p'.known == p.known
  {
  }

  lemma AdmitStep(c: Config, s: State, u: Node, k: nat)
    requires c.Valid() && Inv(c, s) && Enabled(c, s, AdmitItem(u, k))
    ensures Inv(c, Apply(c, s, AdmitItem(u, k)))
  {
    var s' := Apply(c, s, AdmitItem(u, k));
    assert PeerAt(c, s, u);
    AdmitPeer(c, u, s.peers[u], k, c.queueCapacity[u]);
    AdmitKeeps(s.peers[u], k, c.queueCapacity[u]);
    SameSourceStep(c, s, u, s'.peers[u]);
  }

  lemma TakeCopies(p: PeerState, w: nat)
    requires OneCopy(p) && w < |p.workers| && p.workers[w].Idle? && p.queue != []
    ensures OneCopy(SetWorker(p, w, Delaying(p.queue[0])).(queue := p.queue[1..]))
  {
    var worker := Delaying(p.queue[0]);
    var p' := SetWorker(p, w, worker).(queue := p.queue[1..]);
    forall id ensures CopiesAt(p', id) == CopiesAt(p, id) {
      SumByUpdate(p.workers, w, worker, DelayFor(id));
    }
    assert p'.known == p.known;
  }

  lemma TakePeer(c: Config, u: Node, p: PeerState, w: nat)
    requires c.protocol.Valid() && u < |c.neighbors| == |c.workers| && PeerOk(c, u, p)
    requires w < |p.workers| && p.workers[w].Idle? && p.queue != []
    ensures PeerOk(c, u, SetWorker(p, w, Delaying(p.queue[0])).(queue := p.queue[1..]))
  {
    TakeCopies(p, w);
    TakeContents(c, u, p, w);
  }

  lemma TakeContents(c: Config, u: Node, p: PeerState, w: nat)
    requires c.protocol.Valid() && u < |c.neighbors| && ContentsOk(c, u, p)
    requires w < |p.workers| && p.workers[w].Idle? && p.queue != []
    ensures ContentsOk(c, u, SetWorker(p, w, Delaying(p.queue[0])).(queue := p.queue[1..]))
  {
    var worker := Delaying(p.queue[0]);
    var p' := SetWorker(p, w, worker).(queue := p.queue[1..]);
    ContentsKept(c, u, p, p');
    assert p.queue[0] in p.queue;
    forall x | x in p'.workers ensures x == worker || x in p.workers {}
    forall x | x in p'.queue ensures x in p.queue {}
  }

  lemma TakeStep(c: Config, s: State, u: Node, w: nat)
    requires c.Valid() && Inv(c, s) && Enabled(c, s, TakeItem(u, w))
    ensures Inv(c, Apply(c, s, TakeItem(u, w)))
  {
    var p := s.peers[u];
    var moved := SetWorker(p, w, Delaying(p.queue[0]));
    var p' := moved.(queue := p.queue[1..]);
    assert PeerAt(c, s, u);
    TakePeer(c, u, p, w);
    forall v: Node | Adjacent(c.neighbors, u, v) ensures EdgeWith(c, s, u, v, p') {
      assert EdgeAt(c, s, u, v);
      WorkerEdgeOk(c, u, v, p, w, Delaying(p.queue[0]), s.links[(u, v)], s.links[(u, v)], s.peers[v]);
      SourceSame(c, u, v, moved, p', s.links[(u, v)], s.peers[v]);
    }
    PeerStep(c, s, u, p');
  }

  /** A message that a worker is delaying has not been forwarded yet. */
  lemma DelayedNotStarted(p: PeerState, w: nat)
    requires OneCopy(p) && w < |p.workers| && p.workers[w].Delaying?
    ensures !Started(p, p.workers[w].item.message.id)
  {
    var id := p.workers[w].item.message.id;
    SumByAtLeast(p.workers, w, DelayFor(id));
    assert CopiesAt(p, id) == Bit(id in p.known.seen);
  }

  lemma BeginCopies(c: Config, u: Node, p: PeerState, w: nat)
    requires u < |c.neighbors| && OneCopy(p)
    requires w < |p.workers| && p.workers[w].Delaying?
    ensures OneCopy(Begin(c, u, p, w))
    ensures forall id :: Started(Begin(c, u, p, w), id) == (Started(p, id) || id == p.workers[w].item.message.id)
  {
    var p' := Begin(c, u, p, w);
    DelayedNotStarted(p, w);
    forall id ensures CopiesAt(p', id) == CopiesAt(p, id)
              ensures Started(p', id) == (Started(p, id) || id == p.workers[w].item.message.id) {
      SumByUpdate(p.workers, w, p'.workers[w], DelayFor(id));
    }
    assert p'.known.seen == p.known.seen;
  }

  lemma BeginContents(c: Config, u: Node, p: PeerState, w: nat)
    requires c.protocol.Valid() && u < |c.neighbors| && ContentsOk(c, u, p) && OneCopy(p)
    requires w < |p.workers| && p.workers[w].Delaying?
    ensures ContentsOk(c, u, Begin(c, u, p, w))
  {
    var p' := Begin(c, u, p, w);
    var worker := p'.workers[w];
    BeginCopies(c, u, p, w);
    assert p.workers[w] in p.workers;
    assert WorkerOk(c, u, p, p.workers[w]);
    ContentsKept(c, u, p, p');
    forall x | x in p'.workers ensures x == worker || x in p.workers {}
  }

  lemma BeginHistory(c: Config, u: Node, p: PeerState, w: nat)
    requires c.protocol.Valid() && u < |c.neighbors| == |c.workers| && HistoryOk(c, u, p) && KnowledgeOk(c, u, p)
    requires OneCopy(p)
    requires w < |p.workers| && p.workers[w].Delaying?
    ensures HistoryOk(c, u, Begin(c, u, p, w)) && KnowledgeOk(c, u, Begin(c, u, p, w))
  {
    var p' := Begin(c, u, p, w);
    BeginCopies(c, u, p, w);
    DelayedNotStarted(p, w);
    forall id | id in p'.arrival ensures ArrivalOk(c, u, p', id) {
      assert ArrivalOk(c, u, p, id);
    }
    forall id ensures p'.known.About(id).duplicateSenders == p.known.About(id).duplicateSenders
                   && p'.known.About(id).dontWantPeers == p.known.About(id).dontWantPeers {}
  }

  lemma BeginPeer(c: Config, u: Node, p: PeerState, w: nat)
    requires c.protocol.Valid() && u < |c.neighbors| == |c.workers| && PeerOk(c, u, p)
    requires w < |p.workers| && p.workers[w].Delaying?
    ensures PeerOk(c, u, Begin(c, u, p, w))
  {
    BeginContents(c, u, p, w);
    BeginCopies(c, u, p, w);
    BeginHistory(c, u, p, w);
  }

  lemma {:induction false} NeighborOnce(s: seq<Node>, v: Node)
    requires forall i, j :: 0 <= i < j < |s| ==> s[i] != s[j]
    ensures multiset(s)[v] == Bit(v in s)
  {
    if s != [] {
      HeadCount(s);
      NeighborOnce(s[1..], v);
    }
  }

  lemma BeginBalanced(c: Config, u: Node, v: Node, p: PeerState, w: nat, l: Link)
    requires c.Valid() && u < |c.neighbors| && v in c.neighbors[u] && OneCopy(p)
    requires w < |p.workers| && p.workers[w].Delaying? && ItemOk(c, p, p.workers[w].item)
    ensures Balanced(c, v, p, l, Begin(c, u, p, w), l)
  {
    var p' := Begin(c, u, p, w);
    BeginCopies(c, u, p, w);
    DelayedNotStarted(p, w);
    NeighborOnce(c.neighbors[u], v);
    forall id ensures SumBy(p'.workers, OwedBy(v, id)) + Owed(p, v, id)
                      == SumBy(p.workers, OwedBy(v, id)) + Owed(p', v, id) {
      SumByUpdate(p.workers, w, p'.workers[w], OwedBy(v, id));
    }
  }

  lemma EdgeFromParts(c: Config, u: Node, v: Node, p: PeerState, p': PeerState, l: Link, q: PeerState)
    requires c.protocol.Valid() && EdgeOk(c, u, v, p, l, q) && p'.arrival == p.arrival
    requires LinkLaw(c, v, p', l) && SuppressionOk(v, p', l, q)
    ensures EdgeOk(c, u, v, p', l, q)
  {
  }

  lemma BeginEdge(c: Config, u: Node, v: Node, p: PeerState, w: nat, l: Link, q: PeerState)
    requires c.Valid() && u < |c.neighbors| && v in c.neighbors[u] && EdgeOk(c, u, v, p, l, q)
    requires OneCopy(p) && w < |p.workers| && p.workers[w].Delaying? && ItemOk(c, p, p.workers[w].item)
    ensures EdgeOk(c, u, v, Begin(c, u, p, w), l, q)
  {
    BeginBalanced(c, u, v, p, w, l);
    LinkLawMoves(c, v, p, l, Begin(c, u, p, w), l);
    EdgeFromParts(c, u, v, p, Begin(c, u, p, w), l, q);
  }

  lemma BeginEdges(c: Config, s: State, u: Node, w: nat, p: PeerState, p': PeerState)
    requires c.Valid() && Inv(c, s) && WorkerAt(s, u, w) && p == s.peers[u] && p.workers[w].Delaying?
    requires p' == Begin(c, u, p, w)
    ensures forall v: Node {:trigger EdgeWith(c, s, u, v, p')} ::
      Adjacent(c.neighbors, u, v) ==> EdgeWith(c, s, u, v, p')
  {
    assert PeerAt(c, s, u);
    WorkerOf(c, s, u, w);
    forall v: Node | Adjacent(c.neighbors, u, v) ensures EdgeWith(c, s, u, v, p') {
      assert EdgeAt(c, s, u, v);
      BeginEdge(c, u, v, p, w, s.links[(u, v)], s.peers[v]);
    }
  }

  lemma BeginParts(c: Config, s: State, u: Node, w: nat, p: PeerState, p': PeerState)
    requires c.Valid() && Inv(c, s) && WorkerAt(s, u, w) && p == s.peers[u] && p.workers[w].Delaying?
    requires p' == Begin(c, u, p, w)
    ensures Inv(c, s.SetPeer(u, p'))
  {
    assert PeerAt(c, s, u);
    BeginPeer(c, u, p, w);
    BeginEdges(c, s, u, w, p, p');
    PeerStep(c, s, u, p');
  }

  lemma BeginStep(c: Config, s: State, u: Node, w: nat)
    requires c.Valid() && Inv(c, s) && Enabled(c, s, BeginForwarding(u, w))
    ensures Inv(c, Apply(c, s, BeginForwarding(u, w)))
  {
    BeginParts(c, s, u, w, s.peers[u], Begin(c, u, s.peers[u], w));
  }
}
