/**
 * IDONTWANT notices: whoever gets a message tells every neighbour but its supplier, once, and a notice
 * that has arrived keeps back every copy that has not passed the last check.
 *
 * As in FloodingPlans the laws are about one directed link u-v and one message at a time.
 */
module FloodingNotices {
  import opened Wrappers
  import opened Wire
  import opened Graph
  import opened Sums
  import opened Flooding
  import opened Forwarding
  import opened FloodingInvariant
  import opened FloodingSteps
  import opened FloodingArrivals
  import opened FloodingTree
  import opened FloodingCoverage
  import opened FloodingPlans
  import opened FloodingProgress

  // Every neighbour is told once

  ghost function NoticeFor(id: MessageId): Frame -> nat {
    (f: Frame) => if f.IDontWant? && f.control == id then 1 else 0
  }

  /** How often a handler still has to announce the message to v. */
  ghost function AnnounceTo(v: Node, id: MessageId): Handler -> nat {
    (h: Handler) => if h.item.message.id == id then multiset(h.announce)[v] else 0
  }

  ghost function NoticesWaiting(l: Link, id: MessageId): nat {
    SumBy(l.queues.control, NoticeFor(id)) + (if l.hand.Empty? then 0 else NoticeFor(id)(l.hand.frame))
  }

  /** The notices of a message on the sender side of a link, and those sent or dropped. */
  ghost function LinkNotices(l: Link, id: MessageId): nat {
    NoticesWaiting(l, id) + l.log[ControlSent(id)] + l.log[ControlDropped(id)]
  }

  ghost predicate Tells(c: Config, p: PeerState, v: Node, id: MessageId) {
    c.protocol.IDontWantFlooding? && id in p.arrival && p.arrival[id].from != Some(v)
  }

  /** A peer that has the message tells each neighbour but its supplier once; a dropped notice counts too. */
  ghost predicate NoticeLaw(c: Config, p: PeerState, l: Link, v: Node, id: MessageId) {
    SumBy(p.handlers, AnnounceTo(v, id)) + LinkNotices(l, id) == Bit(Tells(c, p, v, id))
  }

  ghost function UnrecordedNotice(l: Link, id: MessageId): nat {
    if l.hand.Written? then NoticeFor(id)(l.hand.frame) else 0
  }

  /** A notice that was written is in transit or in the log of the receiver. */
  ghost predicate NoticeWire(u: Node, l: Link, q: PeerState, id: MessageId) {
    SumBy(l.wire, NoticeFor(id)) + q.log[ControlReceived(u, id)] == l.log[ControlSent(id)] + UnrecordedNotice(l, id)
  }

  ghost predicate NoticeAt(c: Config, s: State, u: Node, v: Node, id: MessageId) {
    && LinkAt(s, u, v)
    && NoticeLaw(c, s.peers[u], s.links[(u, v)], v, id)
    && NoticeWire(u, s.links[(u, v)], s.peers[v], id)
  }

  // Frames

  ghost predicate SameControl(l: Link, l': Link, id: MessageId) {
    && LinkNotices(l', id) == LinkNotices(l, id) && l'.log[ControlSent(id)] == l.log[ControlSent(id)]
    && l'.wire == l.wire && UnrecordedNotice(l', id) == UnrecordedNotice(l, id)
  }

  ghost predicate SameHeard(p: PeerState, p': PeerState, u: Node, id: MessageId) {
    p'.log[ControlReceived(u, id)] == p.log[ControlReceived(u, id)]
  }

  ghost predicate SameTelling(c: Config, p: PeerState, p': PeerState, v: Node, id: MessageId) {
    SumBy(p'.handlers, AnnounceTo(v, id)) == SumBy(p.handlers, AnnounceTo(v, id))
    && Tells(c, p', v, id) == Tells(c, p, v, id)
  }

  /** A step of the sender of the link x-y. */
  lemma SenderNotice(c: Config, s: State, x: Node, y: Node, l': Link, u: Node, v: Node, id: MessageId)
    requires NoticeAt(c, s, u, v, id) && LinkAt(s, x, y)
    requires (x, y) == (u, v) ==> NoticeLaw(c, s.peers[u], l', v, id) && NoticeWire(u, l', s.peers[v], id)
    ensures NoticeAt(c, s.SetLink((x, y), l'), u, v, id)
  {}

  /** A step of the peer x that may touch its link to y but not what either tells or is told. */
  lemma PeerNotice(c: Config, s: State, x: Node, p': PeerState, y: Node, l': Link, u: Node, v: Node, id: MessageId)
    requires NoticeAt(c, s, u, v, id) && LinkAt(s, x, y) && u != v
    requires x == u ==> SameTelling(c, s.peers[u], p', v, id)
    requires x == v ==> SameHeard(s.peers[v], p', u, id)
    requires (x, y) == (u, v) ==> SameControl(s.links[(u, v)], l', id)
    ensures NoticeAt(c, s.SetPeer(x, p').SetLink((x, y), l'), u, v, id)
  {}

  /** A step of the peer x alone. */
  lemma PeerAloneNotice(c: Config, s: State, x: Node, p': PeerState, issued: set<MessageId>, u: Node, v: Node,
                        id: MessageId)
    requires NoticeAt(c, s, u, v, id) && x < |s.peers| && u != v
    requires x == u ==> NoticeLaw(c, p', s.links[(u, v)], v, id)
    requires x == v ==> SameHeard(s.peers[v], p', u, id)
    ensures NoticeAt(c, s.SetPeer(x, p'), u, v, id) && NoticeAt(c, s.SetPeer(x, p').(issued := issued), u, v, id)
  {}

  // The peer at the sending end

  lemma {:induction false} OthersCount(neighbors: seq<Node>, from: Option<Node>, v: Node)
    ensures multiset(Flooding.Others(neighbors, from))[v] == if from == Some(v) then 0 else multiset(neighbors)[v]
  {
    if neighbors != [] {
      OthersCount(neighbors[1..], from, v);
      HeadCount(neighbors);
      var rest := Flooding.Others(neighbors[1..], from);
      assert from != Some(neighbors[0]) ==> Flooding.Others(neighbors, from)[1..] == rest;
    }
  }

  /** A new handler is to tell every neighbour but the supplier. */
  lemma NewHandler(c: Config, u: Node, v: Node, p: PeerState, l: Link, item: Item, p': PeerState, id: MessageId)
    requires c.Valid() && Adjacent(c.neighbors, u, v) && NoticeLaw(c, p, l, v, id) && item.message.id !in p.arrival
    requires p'.handlers == p.handlers + [Handler(item, Announce(c, u, item.from))]
    requires p'.arrival.Keys == p.arrival.Keys + {item.message.id}
    requires forall m :: m in p.arrival ==> p'.arrival[m] == p.arrival[m]
    requires p'.arrival[item.message.id].from == item.from
    ensures NoticeLaw(c, p', l, v, id)
  {
    SumByAppend(p.handlers, Handler(item, Announce(c, u, item.from)), AnnounceTo(v, id));
    OthersCount(c.neighbors[u], item.from, v);
    NeighborOnce(c.neighbors[u], v);
  }

  lemma CreateNotice(c: Config, u: Node, v: Node, p: PeerState, l: Link, id: MessageId)
    requires c.Valid() && Adjacent(c.neighbors, u, v) && NoticeLaw(c, p, l, v, id) && FreshAt(u, p)
    ensures NoticeLaw(c, Create(c, u, p), l, v, id)
  {
    NewHandler(c, u, v, p, l, Item(Message(MessageId(u, p.sequence + 1), 0, 0), None), Create(c, u, p), id);
  }

  lemma AcceptNotice(c: Config, u: Node, v: Node, p: PeerState, l: Link, m: Message, x: Node, d: nat, id: MessageId)
    requires c.Valid() && Adjacent(c.neighbors, u, v) && NoticeLaw(c, p, l, v, id)
    requires p.arrival.Keys == p.known.seen
    ensures NoticeLaw(c, AcceptMessage(c, u, p, m, x, d), l, v, id)
  {
    if m.id !in p.known.seen {
      NewHandler(c, u, v, p, l, Item(m, Some(x)), AcceptMessage(c, u, p, m, x, d), id);
    }
  }

  lemma AdmitNotice(c: Config, p: PeerState, l: Link, k: nat, capacity: nat, v: Node, id: MessageId)
    requires NoticeLaw(c, p, l, v, id) && k < |p.handlers| && p.handlers[k].announce == []
    ensures NoticeLaw(c, Admit(p, k, capacity), l, v, id)
  {
    SumByRemove(p.handlers, k, AnnounceTo(v, id));
  }

  lemma PushControlNotices(l: Link, m: MessageId, capacity: nat, id: MessageId)
    ensures LinkNotices(PushControl(l, m, capacity), id) == LinkNotices(l, id) + Bit(m == id)
  {
    SumByAppend(l.queues.control, IDontWant(m), NoticeFor(id));
  }

  /** One turn of the announcing loop. */
  lemma BroadcastNotice(c: Config, p: PeerState, l: Link, k: nat, capacity: nat, v: Node, id: MessageId)
    requires NoticeLaw(c, p, l, v, id) && k < |p.handlers| && p.handlers[k].announce != []
    ensures
      var h := p.handlers[k];
      NoticeLaw(c, p.(handlers := p.handlers[k := h.(announce := h.announce[1..])]),
                if v == h.announce[0] then PushControl(l, h.item.message.id, capacity) else l, v, id)
  {
    var h := p.handlers[k];
    SumByUpdate(p.handlers, k, h.(announce := h.announce[1..]), AnnounceTo(v, id));
    HeadCount(h.announce);
    PushControlNotices(l, h.item.message.id, capacity, id);
  }

  // The sender of the link

  lemma TakeNotice(c: Config, u: Node, p: PeerState, l: Link, q: PeerState, v: Node, id: MessageId)
    requires NoticeLaw(c, p, l, v, id) && NoticeWire(u, l, q, id) && l.hand.Empty? && !l.queues.Empty()
    requires forall f :: f in l.queues.data ==> f.Data?
    ensures NoticeLaw(c, p, TakeFrame(l), v, id) && NoticeWire(u, TakeFrame(l), q, id)
  {
    var l' := TakeFrame(l);
    if l.queues.control == [] {
      assert l'.hand.frame in l.queues.data;
    } else {
      assert l.queues.control[0] == l'.hand.frame;
    }
  }

  lemma CheckHandNotice(c: Config, p: PeerState, l: Link, next: Hand, v: Node, id: MessageId)
    requires !l.hand.Empty? && !next.Empty? && next.frame == l.hand.frame && !next.Written? && !l.hand.Written?
    ensures SameControl(l, CheckHand(c, p, v, l, next), id)
  {}

  lemma LoseNotice(c: Config, u: Node, p: PeerState, l: Link, q: PeerState, lost: bool, v: Node, id: MessageId)
    requires NoticeLaw(c, p, l, v, id) && NoticeWire(u, l, q, id) && l.hand.Drawing?
    ensures NoticeLaw(c, p, Lose(l, lost), v, id) && NoticeWire(u, Lose(l, lost), q, id)
  {}

  lemma WriteNotice(c: Config, u: Node, p: PeerState, l: Link, q: PeerState, failed: bool, v: Node, id: MessageId)
    requires NoticeLaw(c, p, l, v, id) && NoticeWire(u, l, q, id) && l.hand.Ready?
    ensures NoticeLaw(c, p, Write(l, failed), v, id) && NoticeWire(u, Write(l, failed), q, id)
  {
    SumByAppend(l.wire, l.hand.frame, NoticeFor(id));
  }

  lemma RecordNotice(c: Config, u: Node, p: PeerState, l: Link, q: PeerState, v: Node, id: MessageId)
    requires NoticeLaw(c, p, l, v, id) && NoticeWire(u, l, q, id) && l.hand.Written?
    ensures NoticeLaw(c, p, Recorded(l), v, id) && NoticeWire(u, Recorded(l), q, id)
  {
    var l' := Recorded(l);
    assert l'.log[ControlSent(id)] == l.log[ControlSent(id)] + UnrecordedNotice(l, id);
    assert l'.log[ControlDropped(id)] == l.log[ControlDropped(id)];
  }

  /** The receiver logs the notice that leaves the link. */
  lemma ReceiveNotice(c: Config, u: Node, v: Node, p: PeerState, l: Link, q: PeerState, d: PeerState, id: MessageId)
    requires c.protocol.Valid() && v < |c.neighbors| && NoticeWire(u, l, q, id) && l.wire != []
    requires NoticeLaw(c, p, l, v, id)
    ensures NoticeWire(u, l.(wire := l.wire[1..]), Accept(c, v, q, l.wire[0], u, d), id)
  {
    assert SumBy(l.wire, NoticeFor(id)) == NoticeFor(id)(l.wire[0]) + SumBy(l.wire[1..], NoticeFor(id));
  }

  // Every step, every run

  lemma EndsDiffer(c: Config, s: State, u: Node, v: Node)
    requires c.Valid() && Inv(c, s) && LinkAt(s, u, v)
    ensures u != v && Adjacent(c.neighbors, u, v)
  {}

  lemma DequeueKeepsNotice(c: Config, s: State, x: Node, y: Node, u: Node, v: Node, id: MessageId)
    requires c.Valid() && Inv(c, s) && Enabled(c, s, DequeueFrame(x, y)) && NoticeAt(c, s, u, v, id)
    ensures NoticeAt(c, Apply(c, s, DequeueFrame(x, y)), u, v, id)
  {
    if (x, y) == (u, v) {
      assert EdgeAt(c, s, u, v);
      TakeNotice(c, u, s.peers[u], s.links[(u, v)], s.peers[v], v, id);
    }
    SenderNotice(c, s, x, y, TakeFrame(s.links[(x, y)]), u, v, id);
  }

  lemma FirstCheckKeepsNotice(c: Config, s: State, x: Node, y: Node, u: Node, v: Node, id: MessageId)
    requires Enabled(c, s, FirstCheck(x, y)) && NoticeAt(c, s, u, v, id)
    ensures NoticeAt(c, Apply(c, s, FirstCheck(x, y)), u, v, id)
  {
    var l := s.links[(x, y)];
    CheckHandNotice(c, s.peers[x], l, Drawing(l.hand.frame), y, id);
    SenderNotice(c, s, x, y, CheckHand(c, s.peers[x], y, l, Drawing(l.hand.frame)), u, v, id);
  }

  lemma SecondCheckKeepsNotice(c: Config, s: State, x: Node, y: Node, u: Node, v: Node, id: MessageId)
    requires Enabled(c, s, SecondCheck(x, y)) && NoticeAt(c, s, u, v, id)
    ensures NoticeAt(c, Apply(c, s, SecondCheck(x, y)), u, v, id)
  {
    var l := s.links[(x, y)];
    CheckHandNotice(c, s.peers[x], l, Ready(l.hand.frame), y, id);
    SenderNotice(c, s, x, y, CheckHand(c, s.peers[x], y, l, Ready(l.hand.frame)), u, v, id);
  }

  lemma LoseKeepsNotice(c: Config, s: State, x: Node, y: Node, lost: bool, u: Node, v: Node, id: MessageId)
    requires Enabled(c, s, DrawLoss(x, y, lost)) && NoticeAt(c, s, u, v, id)
    ensures NoticeAt(c, Apply(c, s, DrawLoss(x, y, lost)), u, v, id)
  {
    if (x, y) == (u, v) {
      LoseNotice(c, u, s.peers[u], s.links[(u, v)], s.peers[v], lost, v, id);
    }
    SenderNotice(c, s, x, y, Lose(s.links[(x, y)], lost), u, v, id);
  }

  lemma WriteKeepsNotice(c: Config, s: State, x: Node, y: Node, failed: bool, u: Node, v: Node, id: MessageId)
    requires Enabled(c, s, WriteFrame(x, y, failed)) && NoticeAt(c, s, u, v, id)
    ensures NoticeAt(c, Apply(c, s, WriteFrame(x, y, failed)), u, v, id)
  {
    if (x, y) == (u, v) {
      WriteNotice(c, u, s.peers[u], s.links[(u, v)], s.peers[v], failed, v, id);
    }
    SenderNotice(c, s, x, y, Write(s.links[(x, y)], failed), u, v, id);
  }

  lemma RecordKeepsNotice(c: Config, s: State, x: Node, y: Node, u: Node, v: Node, id: MessageId)
    requires Enabled(c, s, RecordWrite(x, y)) && NoticeAt(c, s, u, v, id)
    ensures NoticeAt(c, Apply(c, s, RecordWrite(x, y)), u, v, id)
  {
    if (x, y) == (u, v) {
      RecordNotice(c, u, s.peers[u], s.links[(u, v)], s.peers[v], v, id);
    }
    SenderNotice(c, s, x, y, Recorded(s.links[(x, y)]), u, v, id);
  }

  lemma DecideKeepsNotice(c: Config, s: State, x: Node, w: nat, u: Node, v: Node, id: MessageId)
    requires Enabled(c, s, DecideNext(x, w)) && NoticeAt(c, s, u, v, id) && u != v
    ensures NoticeAt(c, Apply(c, s, DecideNext(x, w)), u, v, id)
  {
    var worker := s.peers[x].workers[w];
    var (next, l') := Decide(worker, s.links[(x, worker.todo[0])]);
    PeerNotice(c, s, x, SetWorker(s.peers[x], w, next), worker.todo[0], l', u, v, id);
  }

  lemma CheckKeepsNotice(c: Config, s: State, x: Node, w: nat, u: Node, v: Node, id: MessageId)
    requires Enabled(c, s, CheckTarget(x, w)) && NoticeAt(c, s, u, v, id) && u != v
    ensures NoticeAt(c, Apply(c, s, CheckTarget(x, w)), u, v, id)
  {
    var worker := s.peers[x].workers[w];
    var (next, l') := Check(c, s.peers[x], worker, s.links[(x, worker.targets[0])]);
    PeerNotice(c, s, x, SetWorker(s.peers[x], w, next), worker.targets[0], l', u, v, id);
  }

  lemma PushKeepsNotice(c: Config, s: State, x: Node, w: nat, u: Node, v: Node, id: MessageId)
    requires Enabled(c, s, PushTarget(x, w)) && NoticeAt(c, s, u, v, id) && u != v
    ensures NoticeAt(c, Apply(c, s, PushTarget(x, w)), u, v, id)
  {
    var worker := s.peers[x].workers[w];
    var (next, l') := PushFrame(c, x, worker, s.links[(x, worker.target)]);
    PeerNotice(c, s, x, SetWorker(s.peers[x], w, next), worker.target, l', u, v, id);
  }

  /** The steps of workers that touch no link, and the start of one. */
  lemma WorkerKeepsNotice(c: Config, s: State, x: Node, p': PeerState, u: Node, v: Node, id: MessageId)
    requires NoticeAt(c, s, u, v, id) && x < |s.peers| && u != v
    requires p'.handlers == s.peers[x].handlers && p'.arrival == s.peers[x].arrival
    requires forall y, m :: p'.log[ControlReceived(y, m)] == s.peers[x].log[ControlReceived(y, m)]
    ensures NoticeAt(c, s.SetPeer(x, p'), u, v, id)
  {
    PeerAloneNotice(c, s, x, p', s.issued, u, v, id);
  }

  lemma SelectKeepsNotice(c: Config, s: State, x: Node, w: nat, chosen: set<Node>, u: Node, v: Node, id: MessageId)
    requires Enabled(c, s, SelectTargets(x, w, chosen)) && NoticeAt(c, s, u, v, id) && u != v
    ensures NoticeAt(c, Apply(c, s, SelectTargets(x, w, chosen)), u, v, id)
  {
    WorkerKeepsNotice(c, s, x, Apply(c, s, SelectTargets(x, w, chosen)).peers[x], u, v, id);
  }

  lemma TakeKeepsNotice(c: Config, s: State, x: Node, w: nat, u: Node, v: Node, id: MessageId)
    requires Enabled(c, s, TakeItem(x, w)) && NoticeAt(c, s, u, v, id) && u != v
    ensures NoticeAt(c, Apply(c, s, TakeItem(x, w)), u, v, id)
  {
    WorkerKeepsNotice(c, s, x, Apply(c, s, TakeItem(x, w)).peers[x], u, v, id);
  }

  lemma BeginKeepsNotice(c: Config, s: State, x: Node, w: nat, u: Node, v: Node, id: MessageId)
    requires Enabled(c, s, BeginForwarding(x, w)) && NoticeAt(c, s, u, v, id) && u != v
    ensures NoticeAt(c, Apply(c, s, BeginForwarding(x, w)), u, v, id)
  {
    WorkerKeepsNotice(c, s, x, Begin(c, x, s.peers[x], w), u, v, id);
  }

  lemma FinishKeepsNotice(c: Config, s: State, x: Node, w: nat, u: Node, v: Node, id: MessageId)
    requires Enabled(c, s, FinishItem(x, w)) && NoticeAt(c, s, u, v, id) && u != v
    ensures NoticeAt(c, Apply(c, s, FinishItem(x, w)), u, v, id)
  {
    WorkerKeepsNotice(c, s, x, SetWorker(s.peers[x], w, Idle), u, v, id);
  }

  lemma InjectKeepsNotice(c: Config, s: State, x: Node, u: Node, v: Node, id: MessageId)
    requires c.Valid() && Inv(c, s) && Enabled(c, s, Inject(x)) && NoticeAt(c, s, u, v, id)
    ensures NoticeAt(c, Apply(c, s, Inject(x)), u, v, id)
  {
    EndsDiffer(c, s, u, v);
    if x == u {
      PeerOf(c, s, u);
      CreatePeer(c, u, s.peers[u]);
      CreateNotice(c, u, v, s.peers[u], s.links[(u, v)], id);
    }
    PeerAloneNotice(c, s, x, Create(c, x, s.peers[x]), Apply(c, s, Inject(x)).issued, u, v, id);
  }

  lemma AdmitKeepsNotice(c: Config, s: State, x: Node, k: nat, u: Node, v: Node, id: MessageId)
    requires Enabled(c, s, AdmitItem(x, k)) && NoticeAt(c, s, u, v, id) && u != v
    ensures NoticeAt(c, Apply(c, s, AdmitItem(x, k)), u, v, id)
  {
    if x == u {
      AdmitNotice(c, s.peers[u], s.links[(u, v)], k, c.queueCapacity[u], v, id);
    }
    PeerAloneNotice(c, s, x, Admit(s.peers[x], k, c.queueCapacity[x]), s.issued, u, v, id);
  }

  lemma BroadcastKeepsNotice(c: Config, s: State, x: Node, k: nat, u: Node, v: Node, id: MessageId)
    requires Enabled(c, s, BroadcastNext(x, k)) && NoticeAt(c, s, u, v, id) && u != v
    ensures NoticeAt(c, Apply(c, s, BroadcastNext(x, k)), u, v, id)
  {
    var h := s.peers[x].handlers[k];
    var y := h.announce[0];
    var p' := s.peers[x].(handlers := s.peers[x].handlers[k := h.(announce := h.announce[1..])]);
    var l' := PushControl(s.links[(x, y)], h.item.message.id, c.edges[(x, y)].capacity);
    if x == u {
      BroadcastNotice(c, s.peers[u], s.links[(u, v)], k, c.edges[(x, y)].capacity, v, id);
      var t := s.SetPeer(x, p').SetLink((x, y), l');
      assert t.peers[u] == p' && t.peers[v] == s.peers[v];
      assert t.links[(u, v)] == if v == y then l' else s.links[(u, v)];
    } else {
      PeerNotice(c, s, x, p', y, l', u, v, id);
    }
  }

  lemma DeliverKeepsNotice(c: Config, s: State, x: Node, y: Node, u: Node, v: Node, id: MessageId)
    requires c.Valid() && Inv(c, s) && Enabled(c, s, Deliver(x, y)) && NoticeAt(c, s, u, v, id)
    ensures NoticeAt(c, Apply(c, s, Deliver(x, y)), u, v, id)
  {
    EndsDiffer(c, s, u, v);
    var f, l := s.links[(x, y)].wire[0], s.links[(x, y)];
    var q' := Accept(c, y, s.peers[y], f, x, s.peers[x]);
    if (x, y) == (u, v) {
      ReceiveNotice(c, u, v, s.peers[u], l, s.peers[v], s.peers[u], id);
    } else {
      if y == u {
        PeerOf(c, s, u);
        match f {
          case Data(m) =>
            AcceptNotice(c, u, v, s.peers[u], s.links[(u, v)], m, x, Depth(s.peers[x], m.id), id);
          case IDontWant(_) =>
        }
      }
      PeerAloneNotice(c, s, y, q', s.issued, u, v, id);
      SenderNotice(c, s.SetPeer(y, q'), x, y, l.(wire := l.wire[1..]), u, v, id);
    }
  }

  lemma StepKeepsNotice(c: Config, s: State, step: Step, u: Node, v: Node, id: MessageId)
    requires c.Valid() && Inv(c, s) && Enabled(c, s, step) && NoticeAt(c, s, u, v, id)
    ensures NoticeAt(c, Apply(c, s, step), u, v, id)
  {
    EndsDiffer(c, s, u, v);
    match step
    case Inject(x) => InjectKeepsNotice(c, s, x, u, v, id);
    case BroadcastNext(x, k) => BroadcastKeepsNotice(c, s, x, k, u, v, id);
    case AdmitItem(x, k) => AdmitKeepsNotice(c, s, x, k, u, v, id);
    case TakeItem(x, w) => TakeKeepsNotice(c, s, x, w, u, v, id);
    case BeginForwarding(x, w) => BeginKeepsNotice(c, s, x, w, u, v, id);
    case DecideNext(x, w) => DecideKeepsNotice(c, s, x, w, u, v, id);
    case SelectTargets(x, w, chosen) => SelectKeepsNotice(c, s, x, w, chosen, u, v, id);
    case CheckTarget(x, w) => CheckKeepsNotice(c, s, x, w, u, v, id);
    case PushTarget(x, w) => PushKeepsNotice(c, s, x, w, u, v, id);
    case FinishItem(x, w) => FinishKeepsNotice(c, s, x, w, u, v, id);
    case DequeueFrame(x, y) => DequeueKeepsNotice(c, s, x, y, u, v, id);
    case FirstCheck(x, y) => FirstCheckKeepsNotice(c, s, x, y, u, v, id);
    case DrawLoss(x, y, lost) => LoseKeepsNotice(c, s, x, y, lost, u, v, id);
    case SecondCheck(x, y) => SecondCheckKeepsNotice(c, s, x, y, u, v, id);
    case WriteFrame(x, y, failed) => WriteKeepsNotice(c, s, x, y, failed, u, v, id);
    case RecordWrite(x, y) => RecordKeepsNotice(c, s, x, y, u, v, id);
    case Deliver(x, y) => DeliverKeepsNotice(c, s, x, y, u, v, id);
  }

  lemma {:induction false} RunKeepsNotice(c: Config, s: State, steps: seq<Step>, t: State, u: Node, v: Node,
                                          id: MessageId)
    requires c.Valid() && Inv(c, s) && Run(c, s, steps, t) && NoticeAt(c, s, u, v, id)
    ensures NoticeAt(c, t, u, v, id)
    decreases |steps|
  {
    if steps != [] {
      StepKeepsNotice(c, s, steps[0], u, v, id);
      StepKeepsInv(c, s, steps[0]);
      RunKeepsNotice(c, Apply(c, s, steps[0]), steps[1..], t, u, v, id);
    }
  }

  lemma NewNotice(c: Config, s: State, u: Node, v: Node, id: MessageId)
    requires c.Valid() && Init(c, s) && LinkAt(s, u, v)
    ensures NoticeAt(c, s, u, v, id)
  {
  }

  lemma ReachableNotice(c: Config, t: State, u: Node, v: Node, id: MessageId)
    requires c.Valid() && Reachable(c, t) && LinkAt(t, u, v)
    ensures NoticeAt(c, t, u, v, id)
  {
    var s, steps :| Init(c, s) && Run(c, s, steps, t);
    InitInv(c, s);
    RunKeepsInv(c, s, steps, t);
    NewNotice(c, s, u, v, id);
    RunKeepsNotice(c, s, steps, t, u, v, id);
  }

  /**
   * Notices are neither lost nor made up: under IDONTWANT flooding a peer that has the message owes one
   * to every neighbour but its supplier, and it is still to be announced, waiting, dropped, in transit
   * or in the log of the neighbour. Under the other protocols there are none.
   */
  lemma NoticeConservation(c: Config, s: State, u: Node, v: Node, id: MessageId)
    requires c.Valid() && Reachable(c, s) && LinkAt(s, u, v)
    ensures s.peers[u].arrival.Keys == s.peers[u].known.seen
    ensures
      var p, l, q := s.peers[u], s.links[(u, v)], s.peers[v];
      && l.log[ControlSent(id)] + UnrecordedNotice(l, id)
         == SumBy(l.wire, NoticeFor(id)) + q.log[ControlReceived(u, id)]
      && SumBy(p.handlers, AnnounceTo(v, id)) + NoticesWaiting(l, id)
         + l.log[ControlSent(id)] + l.log[ControlDropped(id)]
         == Bit(c.protocol.IDontWantFlooding? && Seen(s, u, id) && p.arrival[id].from != Some(v))
  {
    ReachableNotice(c, s, u, v, id);
    ReachableInv(c, s);
    PeerOf(c, s, u);
  }

  lemma NothingToTell(c: Config, s: State, u: Node, v: Node)
    requires c.Valid() && Inv(c, s) && Standstill(c, s) && LinkAt(s, u, v)
    ensures s.peers[u].handlers == [] && LinkIdle(s.links[(u, v)])
  {
    if s.peers[u].handlers != [] {
      var step := HandlerCanMove(c, s, u);
    }
    if !LinkIdle(s.links[(u, v)]) {
      var step := LinkCanMove(c, s, u, v);
    }
  }

  lemma IdleTold(c: Config, u: Node, v: Node, p: PeerState, l: Link, q: PeerState, id: MessageId)
    requires NoticeLaw(c, p, l, v, id) && NoticeWire(u, l, q, id) && p.handlers == [] && LinkIdle(l)
    ensures q.log[ControlReceived(u, id)] + l.log[ControlDropped(id)] == Bit(Tells(c, p, v, id))
  {}

  /**
   * Once nothing but an injection can happen, every neighbour of a peer that has the message, its supplier
   * apart, has logged the notice and counts the peer as unwilling, unless the notice was dropped.
   */
  lemma EveryNeighborIsTold(c: Config, s: State, u: Node, v: Node, id: MessageId)
    requires c.Valid() && Reachable(c, s) && Standstill(c, s) && c.protocol.IDontWantFlooding?
    requires LinkAt(s, u, v) && Seen(s, u, id)
    ensures id in s.peers[u].arrival && LinkAt(s, v, u)
    ensures
      var told := s.peers[v].log[ControlReceived(u, id)];
      && told + s.links[(u, v)].log[ControlDropped(id)] == Bit(s.peers[u].arrival[id].from != Some(v))
      && (u in s.peers[v].known.About(id).dontWantPeers <==> told == 1)
  {
    ReachableInv(c, s);
    PeerOf(c, s, u);
    EndsDiffer(c, s, u, v);
    assert Adjacent(c.neighbors, v, u);
    NothingToTell(c, s, u, v);
    ReachableNotice(c, s, u, v, id);
    IdleTold(c, u, v, s.peers[u], s.links[(u, v)], s.peers[v], id);
    NoticesAreRecorded(c, s, v, u, id);
  }

  // A notice keeps copies back

  /** The frame in hand is a copy of the message that has passed the last check. */
  ghost predicate PastLastCheck(h: Hand, id: MessageId) {
    (h.Ready? || h.Written?) && h.frame.Data? && h.frame.message.id == id
  }

  /** No copy was sent or has passed the last check. */
  ghost predicate LinkBarred(s: State, u: Node, v: Node, id: MessageId) {
    LinkAt(s, u, v) && s.links[(u, v)].log[Sent(id)] == 0 && !PastLastCheck(s.links[(u, v)].hand, id)
  }

  /** And the target is known to be unwilling. */
  ghost predicate Barred(s: State, u: Node, v: Node, id: MessageId) {
    LinkBarred(s, u, v, id) && v in s.peers[u].known.About(id).dontWantPeers
  }

  lemma UnwillingStays(protocol: Protocol, k: Known, k': Known, id: MessageId)
    requires KnownMoves(protocol, k, k')
    ensures k.About(id).dontWantPeers <= k'.About(id).dontWantPeers
  {}

  lemma LinkKeepsBar(c: Config, p: PeerState, l: Link, v: Node, id: MessageId, next: Hand)
    requires c.protocol.IDontWantFlooding? && v in p.known.About(id).dontWantPeers
    requires !l.hand.Empty? && !next.Empty? && next.frame == l.hand.frame
    ensures !PastLastCheck(CheckHand(c, p, v, l, next).hand, id)
  {}

  lemma CheckStaysBarred(c: Config, s: State, step: Step, u: Node, v: Node, id: MessageId)
    requires c.protocol.IDontWantFlooding? && Enabled(c, s, step) && Barred(s, u, v, id)
    requires step.FirstCheck? || step.SecondCheck?
    ensures LinkBarred(Apply(c, s, step), u, v, id)
  {
    if (step.u, step.v) == (u, v) {
      var l := s.links[(u, v)];
      LinkKeepsBar(c, s.peers[u], l, v, id, Drawing(l.hand.frame));
      LinkKeepsBar(c, s.peers[u], l, v, id, Ready(l.hand.frame));
    }
  }

  lemma SendStaysBarred(c: Config, s: State, step: Step, u: Node, v: Node, id: MessageId)
    requires Enabled(c, s, step) && Barred(s, u, v, id)
    requires step.DequeueFrame? || step.DrawLoss? || step.WriteFrame? || step.RecordWrite?
    ensures LinkBarred(Apply(c, s, step), u, v, id)
  {}

  lemma StaysBarred(c: Config, s: State, step: Step, u: Node, v: Node, id: MessageId)
    requires c.protocol.IDontWantFlooding? && Enabled(c, s, step) && Barred(s, u, v, id)
    ensures LinkBarred(Apply(c, s, step), u, v, id)
  {
    if step.FirstCheck? || step.SecondCheck? {
      CheckStaysBarred(c, s, step, u, v, id);
    } else if step.DequeueFrame? || step.DrawLoss? || step.WriteFrame? || step.RecordWrite? {
      SendStaysBarred(c, s, step, u, v, id);
    }
  }

  /** Over whole runs: from then on no copy of the message is sent to the unwilling target. */
  lemma {:induction false} NoticeKeepsCopiesBack(c: Config, s: State, steps: seq<Step>, t: State, u: Node, v: Node,
                                                 id: MessageId)
    requires c.protocol.IDontWantFlooding? && Run(c, s, steps, t) && Barred(s, u, v, id)
    ensures Barred(t, u, v, id)
    decreases |steps|
  {
    if steps != [] {
      var next := Apply(c, s, steps[0]);
      StepMovesKnown(c, s, steps[0], u);
      UnwillingStays(c.protocol, s.peers[u].known, next.peers[u].known, id);
      StaysBarred(c, s, steps[0], u, v, id);
      NoticeKeepsCopiesBack(c, next, steps[1..], t, u, v, id);
    }
  }

  /**
   * What becomes of a copy for an unwilling target: if its notice is logged before a copy has passed the
   * last check, then none is ever sent, and once the forwarding is over it was suppressed or dropped.
   */
  lemma UnwillingIsSpared(c: Config, s: State, steps: seq<Step>, t: State, u: Node, v: Node, id: MessageId)
    requires c.Valid() && Reachable(c, s) && Run(c, s, steps, t) && c.protocol.IDontWantFlooding?
    requires LinkAt(s, u, v) && s.peers[u].log[ControlReceived(v, id)] > 0
    requires s.links[(u, v)].log[Sent(id)] == 0 && !PastLastCheck(s.links[(u, v)].hand, id)
    ensures LinkAt(t, u, v) && t.links[(u, v)].log[Sent(id)] == 0
    ensures
      var l := t.links[(u, v)];
      FinishedForwarding(t.peers[u], id) && Waiting(l, id) == 0 ==>
        && id in t.peers[u].arrival
        && l.log[Suppressed(id)] + l.log[Dropped(id)] == Bit(t.peers[u].arrival[id].from != Some(v))
  {
    NoticesAreRecorded(c, s, u, v, id);
    NoticeKeepsCopiesBack(c, s, steps, t, u, v, id);
    StillReachable(c, s, steps, t);
    if FinishedForwarding(t.peers[u], id) {
      OneFatePerNeighbor(c, t, u, v, id);
    }
  }
}
