/**
 * What a suppression plan holds, told from the log.
 *
 * The laws are about one directed link u-v and one message at a time: what u has recorded of v, what
 * its workers plan for v, and what the link carries. A step touches them through the peer u and the
 * link alone, so each kind of step is one lemma over the values before and after.
 */
module FloodingPlans {
  import opened Wrappers
  import opened Wire
  import opened Graph
  import opened Sums
  import opened Flooding
  import opened FloodingInvariant
  import opened FloodingSteps
  import opened FloodingArrivals
  import opened FloodingCoverage

  ghost predicate IsDuplicateSender(p: PeerState, v: Node, id: MessageId) {
    v in p.known.About(id).duplicateSenders
  }

  ghost predicate IsUnwilling(p: PeerState, v: Node, id: MessageId) {
    v in p.known.About(id).dontWantPeers
  }

  /** The log holds a duplicate of the message from v. */
  ghost predicate DuplicateLogged(p: PeerState, v: Node, id: MessageId) {
    p.log[Received(v, id, true)] > 0
  }

  /** The log holds a notice by v that it does not want the message. */
  ghost predicate NoticeLogged(p: PeerState, v: Node, id: MessageId) {
    p.log[ControlReceived(v, id)] > 0
  }

  /**
   * Duplicate senders have a logged duplicate, and until forwarding starts every logged duplicate
   * makes one; the unwilling peers are at any time those with a logged notice.
   */
  ghost predicate RecordOk(protocol: Protocol, p: PeerState, v: Node, id: MessageId) {
    && (protocol.DuplicateAware? ==>
         && (IsDuplicateSender(p, v, id) ==> DuplicateLogged(p, v, id))
         && (DuplicateLogged(p, v, id) && !Started(p, id) ==> IsDuplicateSender(p, v, id)))
    && (protocol.IDontWantFlooding? ==> (IsUnwilling(p, v, id) <==> NoticeLogged(p, v, id)))
  }

  /** A worker that is deciding leaves v out only for a recorded reason; a duplicate sender it always leaves out. */
  ghost predicate PlanOk(protocol: Protocol, p: PeerState, w: Worker, v: Node, id: MessageId) {
    w.Deciding? && w.item.message.id == id ==>
      && (protocol.DuplicateAware? ==> (v in w.suppressed <==> IsDuplicateSender(p, v, id)))
      && (protocol.IDontWantFlooding? && v in w.suppressed ==> IsUnwilling(p, v, id))
  }

  ghost predicate PlansOk(protocol: Protocol, p: PeerState, v: Node, id: MessageId) {
    forall w :: w in p.workers ==> PlanOk(protocol, p, w, v, id)
  }

  /** How often a worker has chosen v for a copy of the message. */
  ghost function Chosen(w: Worker, v: Node, id: MessageId): nat {
    match w
    case Deciding(item, _, _, eligible) => if item.message.id == id then multiset(eligible)[v] else 0
    case Relaying(m, targets) => if m.id == id then multiset(targets)[v] else 0
    case Pushing(m, target, targets) =>
      if m.id == id then (if target == v then 1 else 0) + multiset(targets)[v] else 0
    case _ => 0
  }

  ghost function ChosenBy(v: Node, id: MessageId): Worker -> nat {
    (w: Worker) => Chosen(w, v, id)
  }

  /** The copies of the message that the link has, had or lost. */
  ghost function LinkCopies(l: Link, id: MessageId): nat {
    Waiting(l, id) + l.log[Sent(id)] + l.log[Dropped(id)]
  }

  /** A duplicate sender is never chosen and gets no copy; nobody is spared without a record. */
  ghost predicate SparedOk(protocol: Protocol, p: PeerState, l: Link, v: Node, id: MessageId) {
    && (protocol.DuplicateAware? ==>
         if IsDuplicateSender(p, v, id) then SumBy(p.workers, ChosenBy(v, id)) + LinkCopies(l, id) == 0
         else l.log[Suppressed(id)] == 0)
    && (protocol.IDontWantFlooding? && l.log[Suppressed(id)] > 0 ==> IsUnwilling(p, v, id))
  }

  ghost predicate PairOk(protocol: Protocol, p: PeerState, l: Link, v: Node, id: MessageId) {
    RecordOk(protocol, p, v, id) && PlansOk(protocol, p, v, id) && SparedOk(protocol, p, l, v, id)
  }

  /** What is recorded of v stays, and so does the log of it, except for duplicates that come too late. */
  ghost predicate SameRecord(p: PeerState, p': PeerState, v: Node, id: MessageId) {
    && Started(p', id) == Started(p, id)
    && IsDuplicateSender(p', v, id) == IsDuplicateSender(p, v, id)
    && IsUnwilling(p', v, id) == IsUnwilling(p, v, id)
    && (DuplicateLogged(p, v, id) ==> DuplicateLogged(p', v, id))
    && (DuplicateLogged(p', v, id) && !Started(p, id) ==> DuplicateLogged(p, v, id))
    && NoticeLogged(p', v, id) == NoticeLogged(p, v, id)
  }

  /** Neither the copies nor the suppressions of the link grow. */
  ghost predicate LinkNoMore(l: Link, l': Link, id: MessageId) {
    LinkCopies(l', id) <= LinkCopies(l, id) && l'.log[Suppressed(id)] == l.log[Suppressed(id)]
  }

  /** Handlers, queue, unrelated events and the control side of the link may change. */
  lemma PairKept(protocol: Protocol, p: PeerState, l: Link, p': PeerState, l': Link, v: Node, id: MessageId)
    requires PairOk(protocol, p, l, v, id) && SameRecord(p, p', v, id) && LinkNoMore(l, l', id)
    requires p'.workers == p.workers
    ensures PairOk(protocol, p', l', v, id)
  {
    forall w | w in p'.workers ensures PlanOk(protocol, p', w, v, id) {
      assert PlanOk(protocol, p, w, v, id);
    }
  }

  /** A worker moves on: what it takes from the link or gives to it stays chosen or is a copy. */
  lemma PairWorker(protocol: Protocol, p: PeerState, l: Link, w: nat, worker: Worker, p': PeerState, l': Link,
                   v: Node, id: MessageId)
    requires PairOk(protocol, p, l, v, id) && SameRecord(p, p', v, id)
    requires w < |p.workers| && p'.workers == p.workers[w := worker] && PlanOk(protocol, p, worker, v, id)
    requires protocol.DuplicateAware? ==>
      if IsDuplicateSender(p, v, id)
      then Chosen(worker, v, id) + LinkCopies(l', id) <= Chosen(p.workers[w], v, id) + LinkCopies(l, id)
      else l'.log[Suppressed(id)] == l.log[Suppressed(id)]
    requires protocol.IDontWantFlooding? && l'.log[Suppressed(id)] > l.log[Suppressed(id)] ==> IsUnwilling(p, v, id)
    ensures PairOk(protocol, p', l', v, id)
  {
    SumByUpdate(p.workers, w, worker, ChosenBy(v, id));
    forall x | x in p'.workers ensures PlanOk(protocol, p', x, v, id) {
      assert x == worker || x in p.workers;
      assert PlanOk(protocol, p, x, v, id);
    }
  }

  // Worker steps

  lemma PlanOf(protocol: Protocol, p: PeerState, w: nat, v: Node, id: MessageId)
    requires PlansOk(protocol, p, v, id) && w < |p.workers|
    ensures PlanOk(protocol, p, p.workers[w], v, id)
  {
    assert p.workers[w] in p.workers;
  }

  lemma DecidePair(protocol: Protocol, p: PeerState, l: Link, w: nat, l0: Link, v: Node, id: MessageId)
    requires PairOk(protocol, p, l, v, id) && w < |p.workers| && p.workers[w].Deciding? && p.workers[w].todo != []
    requires v == p.workers[w].todo[0] ==> l0 == l
    ensures
      var (next, l') := Decide(p.workers[w], l0);
      PairOk(protocol, SetWorker(p, w, next), if v == p.workers[w].todo[0] then l' else l, v, id)
  {
    var worker := p.workers[w];
    var (next, l1) := Decide(worker, l0);
    var l' := if v == worker.todo[0] then l1 else l;
    PlanOf(protocol, p, w, v, id);
    PairWorker(protocol, p, l, w, next, SetWorker(p, w, next), l', v, id);
  }

  lemma CheckPair(c: Config, p: PeerState, l: Link, w: nat, l0: Link, v: Node, id: MessageId)
    requires PairOk(c.protocol, p, l, v, id) && w < |p.workers| && p.workers[w].Relaying? && p.workers[w].targets != []
    requires v == p.workers[w].targets[0] ==> l0 == l
    ensures
      var (next, l') := Check(c, p, p.workers[w], l0);
      PairOk(c.protocol, SetWorker(p, w, next), if v == p.workers[w].targets[0] then l' else l, v, id)
  {
    var worker := p.workers[w];
    var (next, l1) := Check(c, p, worker, l0);
    var l' := if v == worker.targets[0] then l1 else l;
    HeadCount(worker.targets);
    PairWorker(c.protocol, p, l, w, next, SetWorker(p, w, next), l', v, id);
  }

  lemma PushCopies(l: Link, m: Message, capacity: nat, id: MessageId)
    ensures LinkCopies(PushData(l, m, capacity), id) == LinkCopies(l, id) + Bit(m.id == id)
    ensures PushData(l, m, capacity).log[Suppressed(id)] == l.log[Suppressed(id)]
  {
    SumByAppend(l.queues.data, Data(m), DataFor(id));
  }

  lemma PushPair(protocol: Protocol, p: PeerState, l: Link, w: nat, capacity: nat, v: Node, id: MessageId)
    requires PairOk(protocol, p, l, v, id) && w < |p.workers| && p.workers[w].Pushing?
    ensures
      var worker := p.workers[w];
      PairOk(protocol, SetWorker(p, w, Relaying(worker.outgoing, worker.targets)),
             if v == worker.target then PushData(l, worker.outgoing, capacity) else l, v, id)
  {
    var worker := p.workers[w];
    var next := Relaying(worker.outgoing, worker.targets);
    var l' := if v == worker.target then PushData(l, worker.outgoing, capacity) else l;
    PushCopies(l, worker.outgoing, capacity, id);
    PairWorker(protocol, p, l, w, next, SetWorker(p, w, next), l', v, id);
  }

  lemma SelectPair(c: Config, p: PeerState, l: Link, w: nat, chosen: set<Node>, v: Node, id: MessageId)
    requires c.Valid() && PairOk(c.protocol, p, l, v, id) && w < |p.workers| && p.workers[w].Deciding?
    ensures
      var worker := p.workers[w];
      PairOk(c.protocol, SetWorker(p, w, Relaying(Outgoing(c.protocol, worker.item), Keep(worker.eligible, chosen))),
             l, v, id)
  {
    var worker := p.workers[w];
    var next := Relaying(Outgoing(c.protocol, worker.item), Keep(worker.eligible, chosen));
    KeepCount(worker.eligible, chosen, v);
    PairWorker(c.protocol, p, l, w, next, SetWorker(p, w, next), l, v, id);
  }

  lemma BeginPair(c: Config, u: Node, p: PeerState, l: Link, w: nat, v: Node, id: MessageId)
    requires PairOk(c.protocol, p, l, v, id) && u < |c.neighbors| && w < |p.workers| && p.workers[w].Delaying?
    ensures PairOk(c.protocol, Begin(c, u, p, w), l, v, id)
  {
    var p' := Begin(c, u, p, w);
    SumByUpdate(p.workers, w, p'.workers[w], ChosenBy(v, id));
    forall x | x in p'.workers ensures PlanOk(c.protocol, p', x, v, id) {
      assert x == p'.workers[w] || x in p.workers;
      assert x in p.workers ==> PlanOk(c.protocol, p, x, v, id);
    }
  }

  // Arrivals

  /** Before a peer starts to forward a message it has chosen nobody and sent nothing. */
  lemma NothingBeforeStart(c: Config, v: Node, p: PeerState, l: Link, id: MessageId)
    requires LinkLaw(c, v, p, l) && !Started(p, id)
    ensures SumBy(p.workers, ChosenBy(v, id)) + LinkCopies(l, id) == 0 && l.log[Suppressed(id)] == 0
  {
    assert SumBy(p.workers, OwedBy(v, id)) + Tally(l, id) <= Owed(p, v, id);
    ChosenIsOwed(p.workers, v, id);
  }

  lemma {:induction false} ChosenIsOwed(workers: seq<Worker>, v: Node, id: MessageId)
    ensures SumBy(workers, ChosenBy(v, id)) <= SumBy(workers, OwedBy(v, id))
  {
    if workers != [] {
      ChosenIsOwed(workers[1..], v, id);
      assert ChosenBy(v, id)(workers[0]) <= OwedBy(v, id)(workers[0]);
    }
  }

  /** Nobody is deciding about a message that is not being forwarded yet. */
  lemma NoPlanBeforeStart(c: Config, u: Node, p: PeerState, w: Worker, id: MessageId)
    requires c.protocol.Valid() && u < |c.neighbors| && ContentsOk(c, u, p) && !Started(p, id) && w in p.workers
    ensures w.Deciding? ==> w.item.message.id != id
  {
    assert WorkerOk(c, u, p, w);
  }

  lemma AcceptRecord(c: Config, u: Node, p: PeerState, m: Message, x: Node, d: nat, v: Node, id: MessageId)
    requires u < |c.neighbors| && (Started(p, id) ==> id in p.known.seen)
    requires Started(p, id) || m.id != id || x != v || id !in p.known.seen
    ensures SameRecord(p, AcceptMessage(c, u, p, m, x, d), v, id)
  {
    var p' := AcceptMessage(c, u, p, m, x, d);
    var (known, duplicate) := p.known.RegisterReceived(c.protocol, m.id, x);
    assert p'.known == known && p'.log == p.log + multiset{Received(x, m.id, duplicate)};
  }

  lemma AcceptPair(c: Config, u: Node, p: PeerState, l: Link, m: Message, x: Node, d: nat, v: Node, id: MessageId)
    requires c.protocol.Valid() && u < |c.neighbors| && PairOk(c.protocol, p, l, v, id)
    requires ContentsOk(c, u, p) && LinkLaw(c, v, p, l) && OneCopy(p)
    ensures PairOk(c.protocol, AcceptMessage(c, u, p, m, x, d), l, v, id)
  {
    var p' := AcceptMessage(c, u, p, m, x, d);
    if Started(p, id) || m.id != id || x != v || id !in p.known.seen {
      if Started(p, id) {
        StartedIsSeen(p, id);
      }
      AcceptRecord(c, u, p, m, x, d, v, id);
      PairKept(c.protocol, p, l, p', l, v, id);
    } else {
      NothingBeforeStart(c, v, p, l, id);
      forall w | w in p'.workers ensures PlanOk(c.protocol, p', w, v, id) {
        NoPlanBeforeStart(c, u, p, w, id);
      }
    }
  }

  lemma NoticePair(c: Config, u: Node, p: PeerState, l: Link, m: MessageId, x: Node, v: Node, id: MessageId)
    requires PairOk(c.protocol, p, l, v, id)
    ensures PairOk(c.protocol, AcceptIDontWant(c, p, m, x), l, v, id)
  {
    var p' := AcceptIDontWant(c, p, m, x);
    forall w | w in p'.workers ensures PlanOk(c.protocol, p', w, v, id) {
      assert PlanOk(c.protocol, p, w, v, id);
    }
  }

  lemma CreatePair(c: Config, u: Node, p: PeerState, l: Link, v: Node, id: MessageId)
    requires u < |c.neighbors| && PairOk(c.protocol, p, l, v, id)
    ensures PairOk(c.protocol, Create(c, u, p), l, v, id)
  {
    CreateAbout(c, u, p);
    PairKept(c.protocol, p, l, Create(c, u, p), l, v, id);
  }

  lemma AdmitPair(protocol: Protocol, p: PeerState, l: Link, k: nat, capacity: nat, v: Node, id: MessageId)
    requires PairOk(protocol, p, l, v, id) && k < |p.handlers|
    ensures PairOk(protocol, Admit(p, k, capacity), l, v, id)
  {
    PairKept(protocol, p, l, Admit(p, k, capacity), l, v, id);
  }

  // The sender of the link

  lemma TakePair(protocol: Protocol, p: PeerState, l: Link, v: Node, id: MessageId)
    requires PairOk(protocol, p, l, v, id) && l.hand.Empty? && !l.queues.Empty()
    requires forall f :: f in l.queues.control ==> f.IDontWant?
    ensures PairOk(protocol, p, TakeFrame(l), v, id)
  {
    var l' := TakeFrame(l);
    if l.queues.control != [] {
      assert l'.hand.frame in l.queues.control;
    } else {
      assert l.queues.data[0] == l'.hand.frame;
    }
    PairKept(protocol, p, l, p, l', v, id);
  }

  lemma CheckHandPair(c: Config, p: PeerState, l: Link, next: Hand, v: Node, id: MessageId)
    requires PairOk(c.protocol, p, l, v, id) && !l.hand.Empty? && !next.Empty? && next.frame == l.hand.frame
    ensures PairOk(c.protocol, p, CheckHand(c, p, v, l, next), v, id)
  {
  }

  // Loss, write and record move a copy on without making another.

  lemma LosePair(protocol: Protocol, p: PeerState, l: Link, lost: bool, v: Node, id: MessageId)
    requires PairOk(protocol, p, l, v, id) && l.hand.Drawing?
    ensures PairOk(protocol, p, Lose(l, lost), v, id)
  {
    PairKept(protocol, p, l, p, Lose(l, lost), v, id);
  }

  lemma WritePair(protocol: Protocol, p: PeerState, l: Link, failed: bool, v: Node, id: MessageId)
    requires PairOk(protocol, p, l, v, id) && l.hand.Ready?
    ensures PairOk(protocol, p, Write(l, failed), v, id)
  {
    PairKept(protocol, p, l, p, Write(l, failed), v, id);
  }

  lemma RecordPair(protocol: Protocol, p: PeerState, l: Link, v: Node, id: MessageId)
    requires PairOk(protocol, p, l, v, id) && l.hand.Written?
    ensures PairOk(protocol, p, Recorded(l), v, id)
  {
    var l' := Recorded(l);
    assert l'.log[Sent(id)] == l.log[Sent(id)] + Unrecorded(l, id) && l'.log[Dropped(id)] == l.log[Dropped(id)];
    PairKept(protocol, p, l, p, Recorded(l), v, id);
  }

  // Every step, every run

  ghost predicate PairAt(c: Config, s: State, u: Node, v: Node, id: MessageId) {
    LinkAt(s, u, v) && PairOk(c.protocol, s.peers[u], s.links[(u, v)], v, id)
  }

  /** A step of the sender of the link x-y. */
  lemma SenderPair(c: Config, s: State, x: Node, y: Node, l': Link, u: Node, v: Node, id: MessageId)
    requires PairAt(c, s, u, v, id) && LinkAt(s, x, y)
    requires (x, y) == (u, v) ==> PairOk(c.protocol, s.peers[u], l', v, id)
    ensures PairAt(c, s.SetLink((x, y), l'), u, v, id)
  {}

  /** A step of the peer x that may touch its link to y. */
  lemma PeerLinkPair(c: Config, s: State, x: Node, p': PeerState, y: Node, l': Link, u: Node, v: Node, id: MessageId)
    requires PairAt(c, s, u, v, id) && LinkAt(s, x, y)
    requires x == u ==> PairOk(c.protocol, p', if v == y then l' else s.links[(u, v)], v, id)
    ensures PairAt(c, s.SetPeer(x, p').SetLink((x, y), l'), u, v, id)
  {}

  lemma DequeueKeepsPair(c: Config, s: State, x: Node, y: Node, u: Node, v: Node, id: MessageId)
    requires c.Valid() && Inv(c, s) && Enabled(c, s, DequeueFrame(x, y)) && PairAt(c, s, u, v, id)
    ensures PairAt(c, Apply(c, s, DequeueFrame(x, y)), u, v, id)
  {
    if (x, y) == (u, v) {
      assert EdgeAt(c, s, u, v);
      TakePair(c.protocol, s.peers[u], s.links[(u, v)], v, id);
    }
    SenderPair(c, s, x, y, TakeFrame(s.links[(x, y)]), u, v, id);
  }

  lemma FirstCheckKeepsPair(c: Config, s: State, x: Node, y: Node, u: Node, v: Node, id: MessageId)
    requires Enabled(c, s, FirstCheck(x, y)) && PairAt(c, s, u, v, id)
    ensures PairAt(c, Apply(c, s, FirstCheck(x, y)), u, v, id)
  {
    var l := s.links[(x, y)];
    if (x, y) == (u, v) {
      CheckHandPair(c, s.peers[u], l, Drawing(l.hand.frame), v, id);
    }
    SenderPair(c, s, x, y, CheckHand(c, s.peers[x], y, l, Drawing(l.hand.frame)), u, v, id);
  }

  lemma SecondCheckKeepsPair(c: Config, s: State, x: Node, y: Node, u: Node, v: Node, id: MessageId)
    requires Enabled(c, s, SecondCheck(x, y)) && PairAt(c, s, u, v, id)
    ensures PairAt(c, Apply(c, s, SecondCheck(x, y)), u, v, id)
  {
    var l := s.links[(x, y)];
    if (x, y) == (u, v) {
      CheckHandPair(c, s.peers[u], l, Ready(l.hand.frame), v, id);
    }
    SenderPair(c, s, x, y, CheckHand(c, s.peers[x], y, l, Ready(l.hand.frame)), u, v, id);
  }

  lemma LoseKeepsPair(c: Config, s: State, x: Node, y: Node, lost: bool, u: Node, v: Node, id: MessageId)
    requires Enabled(c, s, DrawLoss(x, y, lost)) && PairAt(c, s, u, v, id)
    ensures PairAt(c, Apply(c, s, DrawLoss(x, y, lost)), u, v, id)
  {
    if (x, y) == (u, v) {
      LosePair(c.protocol, s.peers[u], s.links[(u, v)], lost, v, id);
    }
    SenderPair(c, s, x, y, Lose(s.links[(x, y)], lost), u, v, id);
  }

  lemma WriteKeepsPair(c: Config, s: State, x: Node, y: Node, failed: bool, u: Node, v: Node, id: MessageId)
    requires Enabled(c, s, WriteFrame(x, y, failed)) && PairAt(c, s, u, v, id)
    ensures PairAt(c, Apply(c, s, WriteFrame(x, y, failed)), u, v, id)
  {
    if (x, y) == (u, v) {
      WritePair(c.protocol, s.peers[u], s.links[(u, v)], failed, v, id);
    }
    SenderPair(c, s, x, y, Write(s.links[(x, y)], failed), u, v, id);
  }

  lemma RecordKeepsPair(c: Config, s: State, x: Node, y: Node, u: Node, v: Node, id: MessageId)
    requires Enabled(c, s, RecordWrite(x, y)) && PairAt(c, s, u, v, id)
    ensures PairAt(c, Apply(c, s, RecordWrite(x, y)), u, v, id)
  {
    if (x, y) == (u, v) {
      RecordPair(c.protocol, s.peers[u], s.links[(u, v)], v, id);
    }
    SenderPair(c, s, x, y, Recorded(s.links[(x, y)]), u, v, id);
  }

  lemma DecideKeepsPair(c: Config, s: State, x: Node, w: nat, u: Node, v: Node, id: MessageId)
    requires Enabled(c, s, DecideNext(x, w)) && PairAt(c, s, u, v, id)
    ensures PairAt(c, Apply(c, s, DecideNext(x, w)), u, v, id)
  {
    var worker := s.peers[x].workers[w];
    var y := worker.todo[0];
    var (next, l') := Decide(worker, s.links[(x, y)]);
    if x == u {
      DecidePair(c.protocol, s.peers[u], s.links[(u, v)], w, s.links[(x, y)], v, id);
    }
    PeerLinkPair(c, s, x, SetWorker(s.peers[x], w, next), y, l', u, v, id);
  }

  lemma CheckKeepsPair(c: Config, s: State, x: Node, w: nat, u: Node, v: Node, id: MessageId)
    requires Enabled(c, s, CheckTarget(x, w)) && PairAt(c, s, u, v, id)
    ensures PairAt(c, Apply(c, s, CheckTarget(x, w)), u, v, id)
  {
    var worker := s.peers[x].workers[w];
    var y := worker.targets[0];
    var (next, l') := Check(c, s.peers[x], worker, s.links[(x, y)]);
    if x == u {
      CheckPair(c, s.peers[u], s.links[(u, v)], w, s.links[(x, y)], v, id);
    }
    PeerLinkPair(c, s, x, SetWorker(s.peers[x], w, next), y, l', u, v, id);
  }

  lemma PushKeepsPair(c: Config, s: State, x: Node, w: nat, u: Node, v: Node, id: MessageId)
    requires Enabled(c, s, PushTarget(x, w)) && PairAt(c, s, u, v, id)
    ensures PairAt(c, Apply(c, s, PushTarget(x, w)), u, v, id)
  {
    var worker := s.peers[x].workers[w];
    var y := worker.target;
    var (next, l') := PushFrame(c, x, worker, s.links[(x, y)]);
    if x == u {
      PushPair(c.protocol, s.peers[u], s.links[(u, v)], w, c.edges[(x, y)].capacity, v, id);
    }
    PeerLinkPair(c, s, x, SetWorker(s.peers[x], w, next), y, l', u, v, id);
  }

  /** A step of the peer x that touches no link. */
  lemma PeerAlonePair(c: Config, s: State, x: Node, p': PeerState, issued: set<MessageId>, u: Node, v: Node,
                      id: MessageId)
    requires PairAt(c, s, u, v, id) && x < |s.peers|
    requires x == u ==> PairOk(c.protocol, p', s.links[(u, v)], v, id)
    ensures PairAt(c, s.SetPeer(x, p'), u, v, id) && PairAt(c, s.SetPeer(x, p').(issued := issued), u, v, id)
  {}

  lemma SelectKeepsPair(c: Config, s: State, x: Node, w: nat, chosen: set<Node>, u: Node, v: Node, id: MessageId)
    requires c.Valid() && Enabled(c, s, SelectTargets(x, w, chosen)) && PairAt(c, s, u, v, id)
    ensures PairAt(c, Apply(c, s, SelectTargets(x, w, chosen)), u, v, id)
  {
    if x == u {
      SelectPair(c, s.peers[u], s.links[(u, v)], w, chosen, v, id);
    }
    PeerAlonePair(c, s, x, Apply(c, s, SelectTargets(x, w, chosen)).peers[x], s.issued, u, v, id);
  }

  lemma FinishKeepsPair(c: Config, s: State, x: Node, w: nat, u: Node, v: Node, id: MessageId)
    requires Enabled(c, s, FinishItem(x, w)) && PairAt(c, s, u, v, id)
    ensures PairAt(c, Apply(c, s, FinishItem(x, w)), u, v, id)
  {
    var p' := SetWorker(s.peers[x], w, Idle);
    if x == u {
      PairWorker(c.protocol, s.peers[u], s.links[(u, v)], w, Idle, p', s.links[(u, v)], v, id);
    }
    PeerAlonePair(c, s, x, p', s.issued, u, v, id);
  }

  lemma TakeKeepsPair(c: Config, s: State, x: Node, w: nat, u: Node, v: Node, id: MessageId)
    requires Enabled(c, s, TakeItem(x, w)) && PairAt(c, s, u, v, id)
    ensures PairAt(c, Apply(c, s, TakeItem(x, w)), u, v, id)
  {
    var p := s.peers[x];
    var p' := SetWorker(p, w, Delaying(p.queue[0])).(queue := p.queue[1..]);
    if x == u {
      PairWorker(c.protocol, p, s.links[(u, v)], w, Delaying(p.queue[0]), p', s.links[(u, v)], v, id);
    }
    PeerAlonePair(c, s, x, p', s.issued, u, v, id);
  }

  lemma BeginKeepsPair(c: Config, s: State, x: Node, w: nat, u: Node, v: Node, id: MessageId)
    requires Enabled(c, s, BeginForwarding(x, w)) && PairAt(c, s, u, v, id)
    ensures PairAt(c, Apply(c, s, BeginForwarding(x, w)), u, v, id)
  {
    if x == u {
      BeginPair(c, u, s.peers[u], s.links[(u, v)], w, v, id);
    }
    PeerAlonePair(c, s, x, Begin(c, x, s.peers[x], w), s.issued, u, v, id);
  }

  lemma InjectKeepsPair(c: Config, s: State, x: Node, u: Node, v: Node, id: MessageId)
    requires Enabled(c, s, Inject(x)) && PairAt(c, s, u, v, id)
    ensures PairAt(c, Apply(c, s, Inject(x)), u, v, id)
  {
    if x == u {
      CreatePair(c, u, s.peers[u], s.links[(u, v)], v, id);
    }
    PeerAlonePair(c, s, x, Create(c, x, s.peers[x]), Apply(c, s, Inject(x)).issued, u, v, id);
  }

  lemma AdmitKeepsPair(c: Config, s: State, x: Node, k: nat, u: Node, v: Node, id: MessageId)
    requires Enabled(c, s, AdmitItem(x, k)) && PairAt(c, s, u, v, id)
    ensures PairAt(c, Apply(c, s, AdmitItem(x, k)), u, v, id)
  {
    if x == u {
      AdmitPair(c.protocol, s.peers[u], s.links[(u, v)], k, c.queueCapacity[u], v, id);
    }
    PeerAlonePair(c, s, x, Admit(s.peers[x], k, c.queueCapacity[x]), s.issued, u, v, id);
  }

  lemma BroadcastKeepsPair(c: Config, s: State, x: Node, k: nat, u: Node, v: Node, id: MessageId)
    requires Enabled(c, s, BroadcastNext(x, k)) && PairAt(c, s, u, v, id)
    ensures PairAt(c, Apply(c, s, BroadcastNext(x, k)), u, v, id)
  {
    var h := s.peers[x].handlers[k];
    var y := h.announce[0];
    var p' := s.peers[x].(handlers := s.peers[x].handlers[k := h.(announce := h.announce[1..])]);
    var l' := PushControl(s.links[(x, y)], h.item.message.id, c.edges[(x, y)].capacity);
    if x == u {
      PairKept(c.protocol, s.peers[u], s.links[(u, v)], p', if v == y then l' else s.links[(u, v)], v, id);
    }
    PeerLinkPair(c, s, x, p', y, l', u, v, id);
  }

  /** A delivery: the receiver learns of the frame, and the link it came by has one frame less in transit. */
  lemma DeliverKeepsPair(c: Config, s: State, x: Node, y: Node, u: Node, v: Node, id: MessageId)
    requires c.Valid() && Inv(c, s) && Enabled(c, s, Deliver(x, y)) && PairAt(c, s, u, v, id)
    ensures PairAt(c, Apply(c, s, Deliver(x, y)), u, v, id)
  {
    var f, l := s.links[(x, y)].wire[0], s.links[(x, y)];
    var p' := Accept(c, y, s.peers[y], f, x, s.peers[x]);
    if y == u {
      assert EdgeAt(c, s, u, v) && PeerAt(c, s, u);
      match f {
        case Data(m) => AcceptPair(c, u, s.peers[u], s.links[(u, v)], m, x, Depth(s.peers[x], m.id), v, id);
        case IDontWant(m) => NoticePair(c, u, s.peers[u], s.links[(u, v)], m, x, v, id);
      }
    }
    PeerAlonePair(c, s, y, p', s.issued, u, v, id);
    var t := s.SetPeer(y, p');
    PairKept(c.protocol, t.peers[u], t.links[(u, v)], t.peers[u],
             if (x, y) == (u, v) then l.(wire := l.wire[1..]) else t.links[(u, v)], v, id);
    SenderPair(c, t, x, y, l.(wire := l.wire[1..]), u, v, id);
  }

  lemma StepKeepsPair(c: Config, s: State, step: Step, u: Node, v: Node, id: MessageId)
    requires c.Valid() && Inv(c, s) && Enabled(c, s, step) && PairAt(c, s, u, v, id)
    ensures PairAt(c, Apply(c, s, step), u, v, id)
  {
    match step
    case Inject(x) => InjectKeepsPair(c, s, x, u, v, id);
    case BroadcastNext(x, k) => BroadcastKeepsPair(c, s, x, k, u, v, id);
    case AdmitItem(x, k) => AdmitKeepsPair(c, s, x, k, u, v, id);
    case TakeItem(x, w) => TakeKeepsPair(c, s, x, w, u, v, id);
    case BeginForwarding(x, w) => BeginKeepsPair(c, s, x, w, u, v, id);
    case DecideNext(x, w) => DecideKeepsPair(c, s, x, w, u, v, id);
    case SelectTargets(x, w, chosen) => SelectKeepsPair(c, s, x, w, chosen, u, v, id);
    case CheckTarget(x, w) => CheckKeepsPair(c, s, x, w, u, v, id);
    case PushTarget(x, w) => PushKeepsPair(c, s, x, w, u, v, id);
    case FinishItem(x, w) => FinishKeepsPair(c, s, x, w, u, v, id);
    case DequeueFrame(x, y) => DequeueKeepsPair(c, s, x, y, u, v, id);
    case FirstCheck(x, y) => FirstCheckKeepsPair(c, s, x, y, u, v, id);
    case DrawLoss(x, y, lost) => LoseKeepsPair(c, s, x, y, lost, u, v, id);
    case SecondCheck(x, y) => SecondCheckKeepsPair(c, s, x, y, u, v, id);
    case WriteFrame(x, y, failed) => WriteKeepsPair(c, s, x, y, failed, u, v, id);
    case RecordWrite(x, y) => RecordKeepsPair(c, s, x, y, u, v, id);
    case Deliver(x, y) => DeliverKeepsPair(c, s, x, y, u, v, id);
  }

  lemma {:induction false} RunKeepsPair(c: Config, s: State, steps: seq<Step>, t: State, u: Node, v: Node,
                                        id: MessageId)
    requires c.Valid() && Inv(c, s) && Run(c, s, steps, t) && PairAt(c, s, u, v, id)
    ensures PairAt(c, t, u, v, id)
    decreases |steps|
  {
    if steps != [] {
      StepKeepsPair(c, s, steps[0], u, v, id);
      StepKeepsInv(c, s, steps[0]);
      RunKeepsPair(c, Apply(c, s, steps[0]), steps[1..], t, u, v, id);
    }
  }

  lemma NewPair(c: Config, s: State, u: Node, v: Node, id: MessageId)
    requires c.Valid() && Init(c, s) && LinkAt(s, u, v)
    ensures PairAt(c, s, u, v, id)
  {
  }

  lemma ReachablePair(c: Config, t: State, u: Node, v: Node, id: MessageId)
    requires c.Valid() && Reachable(c, t) && LinkAt(t, u, v)
    ensures PairAt(c, t, u, v, id)
  {
    var s, steps :| Init(c, s) && Run(c, s, steps, t);
    InitInv(c, s);
    RunKeepsInv(c, s, steps, t);
    NewPair(c, s, u, v, id);
    RunKeepsPair(c, s, steps, t, u, v, id);
  }

  // What the laws mean

  /**
   * Under duplicate-aware flooding a neighbour is a duplicate sender only if a duplicate from it is in
   * the log, and until forwarding starts every logged duplicate makes its sender one.
   */
  lemma DuplicatesAreRecorded(c: Config, s: State, u: Node, v: Node, id: MessageId)
    requires c.Valid() && Reachable(c, s) && LinkAt(s, u, v) && c.protocol.DuplicateAware?
    ensures v in s.peers[u].known.About(id).duplicateSenders ==> s.peers[u].log[Received(v, id, true)] > 0
    ensures s.peers[u].log[Received(v, id, true)] > 0 && !Started(s.peers[u], id) ==>
      v in s.peers[u].known.About(id).duplicateSenders
  {
    ReachablePair(c, s, u, v, id);
  }

  /** Under IDONTWANT flooding the unwilling peers are exactly those whose notice is in the log. */
  lemma NoticesAreRecorded(c: Config, s: State, u: Node, v: Node, id: MessageId)
    requires c.Valid() && Reachable(c, s) && LinkAt(s, u, v) && c.protocol.IDontWantFlooding?
    ensures v in s.peers[u].known.About(id).dontWantPeers <==> s.peers[u].log[ControlReceived(v, id)] > 0
  {
    ReachablePair(c, s, u, v, id);
  }

  /** The neighbours that a forwarding has to leave out, going by the log at its start. */
  ghost predicate LoggedReason(protocol: Protocol, p: PeerState, v: Node, id: MessageId) {
    match protocol
    case DuplicateAware => DuplicateLogged(p, v, id)
    case IDontWantFlooding => NoticeLogged(p, v, id)
    case _ => false
  }

  /** The plan handed to a worker leaves out exactly the neighbours with a reason in the log. */
  lemma PlanIsWhatWasLogged(c: Config, s: State, u: Node, w: nat, v: Node)
    requires c.Valid() && Reachable(c, s) && Enabled(c, s, BeginForwarding(u, w)) && LinkAt(s, u, v)
    ensures
      var id := s.peers[u].workers[w].item.message.id;
      var worker := Apply(c, s, BeginForwarding(u, w)).peers[u].workers[w];
      && worker.Deciding? && worker.item == s.peers[u].workers[w].item
      && (v in worker.suppressed <==> LoggedReason(c.protocol, s.peers[u], v, id))
  {
    var id := s.peers[u].workers[w].item.message.id;
    ReachablePair(c, s, u, v, id);
    ReachableInv(c, s);
    assert PeerAt(c, s, u);
    DelayedNotStarted(s.peers[u], w);
  }

  /** Nobody is spared without a reason in the log. */
  lemma SuppressedForAReason(c: Config, s: State, u: Node, v: Node, id: MessageId)
    requires c.Valid() && Reachable(c, s) && LinkAt(s, u, v) && s.links[(u, v)].log[Suppressed(id)] > 0
    ensures LoggedReason(c.protocol, s.peers[u], v, id)
  {
    ReachablePair(c, s, u, v, id);
    ReachableInv(c, s);
    assert EdgeAt(c, s, u, v);
    OnlySuppressors(c, u, v, s.peers[u], s.links[(u, v)], s.peers[v], id);
  }

  lemma OnlySuppressors(c: Config, u: Node, v: Node, p: PeerState, l: Link, q: PeerState, id: MessageId)
    requires c.protocol.Valid() && EdgeOk(c, u, v, p, l, q) && l.log[Suppressed(id)] > 0
    ensures Suppresses(c.protocol)
  {}

  /** A neighbour supplied the message or sent a duplicate of it, never both. */
  lemma SupplierSentNoDuplicate(c: Config, s: State, u: Node, v: Node, id: MessageId)
    requires c.Valid() && Reachable(c, s) && LinkAt(s, u, v) && DuplicateLogged(s.peers[u], v, id)
    ensures id in s.peers[u].arrival && s.peers[u].arrival[id].from != Some(v)
  {
    ReachableInv(c, s);
    assert Adjacent(c.neighbors, u, v) && Adjacent(c.neighbors, v, u);
    assert EdgeAt(c, s, v, u);
    AtMostOncePerEdge(c, s, v, u, id);
    var p := s.peers[u];
    assert p.log[Received(v, id, false)] == Bit(id in p.arrival && p.arrival[id].from == Some(v));
  }

  lemma RunFrom(c: Config, s: State, step: Step, next: State, steps: seq<Step>, t: State)
    requires Enabled(c, s, step) && next == Apply(c, s, step) && Run(c, next, steps, t)
    ensures Run(c, s, [step] + steps, t)
  {
    assert ([step] + steps)[1..] == steps;
  }

  lemma {:induction false} RunReaches(c: Config, s: State, steps: seq<Step>, t: State, more: seq<Step>, r: State)
    requires Run(c, s, steps, t) && Run(c, t, more, r)
    ensures Run(c, s, steps + more, r)
    decreases |steps|
  {
    if steps == [] {
      assert steps + more == more;
    } else {
      var next := Apply(c, s, steps[0]);
      RunReaches(c, next, steps[1..], t, more, r);
      RunFrom(c, s, steps[0], next, steps[1..] + more, r);
      assert [steps[0]] + (steps[1..] + more) == steps + more;
    }
  }

  lemma StillReachable(c: Config, s: State, steps: seq<Step>, t: State)
    requires Reachable(c, s) && Run(c, s, steps, t)
    ensures Reachable(c, t)
  {
    var start, first :| Init(c, start) && Run(c, start, first, s);
    RunReaches(c, start, first, s, steps, t);
  }

  /** Duplicate senders are as they were at the start, and the log at the start tells who they are. */
  lemma StartedPlan(c: Config, s: State, u: Node, w: nat, steps: seq<Step>, t: State, v: Node)
    requires c.Valid() && Reachable(c, s) && Enabled(c, s, BeginForwarding(u, w)) && c.protocol.DuplicateAware?
    requires Run(c, Apply(c, s, BeginForwarding(u, w)), steps, t) && LinkAt(s, u, v)
    ensures Reachable(c, t) && PairAt(c, t, u, v, s.peers[u].workers[w].item.message.id)
    ensures IsDuplicateSender(t.peers[u], v, s.peers[u].workers[w].item.message.id)
       <==> DuplicateLogged(s.peers[u], v, s.peers[u].workers[w].item.message.id)
  {
    var id := s.peers[u].workers[w].item.message.id;
    var begun := Apply(c, s, BeginForwarding(u, w));
    assert Run(c, s, [BeginForwarding(u, w)], begun);
    StillReachable(c, s, [BeginForwarding(u, w)], begun);
    StillReachable(c, begun, steps, t);
    PlanIsWhatWasLogged(c, s, u, w, v);
    ReachablePair(c, begun, u, v, id);
    PlanOf(c.protocol, begun.peers[u], w, v, id);
    ReachableInv(c, begun);
    RunKeepsPair(c, begun, steps, t, u, v, id);
    PlanIsFixed(c, begun, steps, t, u, id);
  }

  /**
   * Duplicate-aware flooding carries its plan out. When a forwarding that started in s is finished, a
   * neighbour has been spared exactly if a duplicate from it was logged before the start, and then it
   * got no copy; any other neighbour but the supplier got one, or it was dropped or is still on its way.
   */
  lemma PlanIsCarriedOut(c: Config, s: State, u: Node, w: nat, steps: seq<Step>, t: State, v: Node)
    requires c.Valid() && Reachable(c, s) && Enabled(c, s, BeginForwarding(u, w)) && c.protocol.DuplicateAware?
    requires Run(c, Apply(c, s, BeginForwarding(u, w)), steps, t) && LinkAt(s, u, v)
    requires u < |t.peers| && FinishedForwarding(t.peers[u], s.peers[u].workers[w].item.message.id)
    ensures LinkAt(t, u, v) && s.peers[u].workers[w].item.message.id in t.peers[u].arrival
    ensures
      var id := s.peers[u].workers[w].item.message.id;
      var l, logged := t.links[(u, v)], DuplicateLogged(s.peers[u], v, id);
      && l.log[Suppressed(id)] == Bit(logged)
      && l.log[Sent(id)] + l.log[Dropped(id)] + Waiting(l, id)
         == Bit(!logged && t.peers[u].arrival[id].from != Some(v))
  {
    var id := s.peers[u].workers[w].item.message.id;
    StartedPlan(c, s, u, w, steps, t, v);
    OneFatePerNeighbor(c, t, u, v, id);
    if IsDuplicateSender(t.peers[u], v, id) {
      SupplierSentNoDuplicate(c, t, u, v, id);
    }
  }
}
