/**
 * Every run comes to rest: a measure that only injections raise.
 *
 * Whatever still has to move weighs more than all it can turn into: a pair of a peer and a message it
 * has not seen outweighs the handler that the first copy starts, a handler the queued item, an item the
 * work of its worker, a decision the frame on the link, and a frame its next stage at the sender.
 */
module FloodingTermination {
  import opened Wrappers
  import opened Wire
  import opened Sums
  import opened Flooding
  import opened FloodingInvariant
  import opened FloodingArrivals

  // How many steps the holders of copies can still take

  ghost function HandWeight(h: Hand): nat {
    match h
    case Empty => 0
    case Taken(_) => 6
    case Drawing(_) => 5
    case Sleeping(_) => 4
    case Ready(_) => 3
    case Written(_) => 1
  }

  ghost function LinkWeight(l: Link): nat {
    7 * (|l.queues.control| + |l.queues.data|) + HandWeight(l.hand) + |l.wire|
  }

  ghost function WorkerWeight(degree: nat): Worker -> nat {
    (w: Worker) =>
      match w
      case Idle => 0
      case Delaying(_) => 3 + 10 * degree
      case Deciding(_, _, todo, eligible) => 2 + 10 * |todo| + 9 * |eligible|
      case Relaying(_, targets) => 1 + 9 * |targets|
      case Pushing(_, _, targets) => 9 + 9 * |targets|
  }

  ghost function HandlerWeight(degree: nat): Handler -> nat {
    (h: Handler) => 5 + 10 * degree + 8 * |h.announce|
  }

  ghost function UnseenWeight(degree: nat): nat {
    5 + 18 * degree
  }

  ghost function QueueWeight(degree: nat): Item -> nat {
    (item: Item) => 4 + 10 * degree
  }

  ghost function PeerWeight(p: PeerState, degree: nat): nat {
    SumBy(p.handlers, HandlerWeight(degree)) + SumBy(p.queue, QueueWeight(degree))
    + SumBy(p.workers, WorkerWeight(degree))
  }

  /** k * weight, by repeated addition. */
  ghost function Times(k: nat, weight: nat): nat {
    if k == 0 then 0 else weight + Times(k - 1, weight)
  }

  lemma {:induction false} TimesIsProduct(k: nat, weight: nat)
    ensures Times(k, weight) == k * weight
  {
    if k > 0 {
      TimesIsProduct(k - 1, weight);
    }
  }

  lemma {:induction false} TimesMonotone(j: nat, k: nat, weight: nat)
    requires j <= k
    ensures Times(j, weight) <= Times(k, weight)
  {
    if j < k {
      TimesMonotone(j, k - 1, weight);
    }
  }

  /** A peer may still see every issued message that it has not seen. */
  ghost function Unseen(issued: set<MessageId>, seen: set<MessageId>, degree: nat): nat {
    Times(|issued - seen|, UnseenWeight(degree))
  }

  ghost function Degree(c: Config, u: Node): nat {
    if u < |c.neighbors| then |c.neighbors[u]| else 0
  }

  ghost function HeldBy(c: Config, peers: seq<PeerState>): nat -> nat {
    (u: nat) => if u < |peers| then PeerWeight(peers[u], Degree(c, u)) else 0
  }

  ghost function UnseenBy(c: Config, s: State): nat -> nat {
    (u: nat) => if u < |s.peers| then Unseen(s.issued, s.peers[u].arrival.Keys, Degree(c, u)) else 0
  }

  ghost function CellWeight(links: map<Edge, Link>, u: Node, v: Node): nat {
    if (u, v) in links then LinkWeight(links[(u, v)]) else 0
  }

  ghost function LinkCells(links: map<Edge, Link>): (nat, nat) -> nat {
    (u: nat, v: nat) => CellWeight(links, u, v)
  }

  ghost function Held(c: Config, peers: seq<PeerState>): nat {
    SumTo(|c.neighbors|, HeldBy(c, peers))
  }

  ghost function OnLinks(c: Config, links: map<Edge, Link>): nat {
    Grid(|c.neighbors|, LinkCells(links))
  }

  ghost function ToBeSeen(c: Config, s: State): nat {
    SumTo(|c.neighbors|, UnseenBy(c, s))
  }

  ghost function Measure(c: Config, s: State): nat {
    Held(c, s.peers) + OnLinks(c, s.links) + ToBeSeen(c, s)
  }

  ghost function Burst(c: Config): nat -> nat {
    (u: nat) => UnseenWeight(Degree(c, u))
  }

  /** The steps one injection can cause: 1, and 5 + 18 * degree for each peer. */
  ghost function StepsPerInjection(c: Config): nat {
    1 + SumTo(|c.neighbors|, Burst(c))
  }

  // Changes of one peer and of one link

  lemma HeldChange(c: Config, peers: seq<PeerState>, u: Node, p': PeerState)
    requires u < |peers| == |c.neighbors|
    ensures Held(c, peers[u := p']) + PeerWeight(peers[u], Degree(c, u))
         == Held(c, peers) + PeerWeight(p', Degree(c, u))
  {
    var peers' := peers[u := p'];
    forall x: nat | x < |peers| && x != u ensures HeldBy(c, peers)(x) == HeldBy(c, peers')(x) {
      assert peers'[x] == peers[x];
    }
    SumToChange(|c.neighbors|, u, HeldBy(c, peers), HeldBy(c, peers'));
  }

  lemma LinksChange(c: Config, links: map<Edge, Link>, u: Node, v: Node, l': Link)
    requires u < |c.neighbors| && v < |c.neighbors| && (u, v) in links
    ensures OnLinks(c, links[(u, v) := l']) + LinkWeight(links[(u, v)]) == OnLinks(c, links) + LinkWeight(l')
  {
    var links' := links[(u, v) := l'];
    forall x: nat, y: nat | (x, y) != (u, v) ensures LinkCells(links)(x, y) == LinkCells(links')(x, y) {}
    GridChange(|c.neighbors|, u, v, LinkCells(links), LinkCells(links'));
  }

  lemma UnseenSame(c: Config, s: State, s': State)
    requires |s.peers| == |s'.peers| && s'.issued == s.issued
    requires forall u: Node :: u < |s.peers| ==> s'.peers[u].arrival.Keys == s.peers[u].arrival.Keys
    ensures ToBeSeen(c, s') == ToBeSeen(c, s)
  {
    forall u: nat ensures UnseenBy(c, s)(u) == UnseenBy(c, s')(u) {}
    SumToEqual(|c.neighbors|, UnseenBy(c, s), UnseenBy(c, s'));
  }

  /** A peer that learns of no message and a link change so that less is left to do. */
  lemma PeerAndLink(c: Config, s: State, u: Node, p': PeerState, x: Node, y: Node, l': Link)
    requires u < |s.peers| == |c.neighbors| && x < |c.neighbors| && y < |c.neighbors| && (x, y) in s.links
    requires p'.arrival == s.peers[u].arrival
    requires PeerWeight(p', Degree(c, u)) + LinkWeight(l')
             < PeerWeight(s.peers[u], Degree(c, u)) + LinkWeight(s.links[(x, y)])
    ensures Measure(c, s.SetPeer(u, p').SetLink((x, y), l')) < Measure(c, s)
  {
    HeldChange(c, s.peers, u, p');
    LinksChange(c, s.links, x, y, l');
    UnseenSame(c, s, s.SetPeer(u, p').SetLink((x, y), l'));
  }

  lemma PeerAlone(c: Config, s: State, u: Node, p': PeerState)
    requires u < |s.peers| == |c.neighbors| && p'.arrival == s.peers[u].arrival
    requires PeerWeight(p', Degree(c, u)) < PeerWeight(s.peers[u], Degree(c, u))
    ensures Measure(c, s.SetPeer(u, p')) < Measure(c, s)
  {
    HeldChange(c, s.peers, u, p');
    UnseenSame(c, s, s.SetPeer(u, p'));
  }

  lemma LinkAlone(c: Config, s: State, u: Node, v: Node, l': Link)
    requires u < |c.neighbors| && v < |c.neighbors| && (u, v) in s.links
    requires LinkWeight(l') < LinkWeight(s.links[(u, v)])
    ensures Measure(c, s.SetLink((u, v), l')) < Measure(c, s)
  {
    LinksChange(c, s.links, u, v, l');
    UnseenSame(c, s, s.SetLink((u, v), l'));
  }

  // The sender goroutine

  lemma SenderDecreases(c: Config, s: State, step: Step)
    requires c.Valid() && Enabled(c, s, step)
    requires step.DequeueFrame? || step.FirstCheck? || step.DrawLoss? || step.SecondCheck? || step.WriteFrame?
      || step.RecordWrite?
    ensures Measure(c, Apply(c, s, step)) < Measure(c, s)
  {
    var u, v := step.u, step.v;
    var l := s.links[(u, v)];
    var l' := Apply(c, s, step).links[(u, v)];
    LinkAlone(c, s, u, v, l');
  }

  // Workers

  lemma WorkerMoves(p: PeerState, w: nat, worker: Worker, degree: nat)
    requires w < |p.workers|
    ensures PeerWeight(SetWorker(p, w, worker), degree) + WorkerWeight(degree)(p.workers[w])
            == PeerWeight(p, degree) + WorkerWeight(degree)(worker)
  {
    SumByUpdate(p.workers, w, worker, WorkerWeight(degree));
  }

  lemma WorkerLinkDecreases(c: Config, s: State, u: Node, w: nat, v: Node, next: Worker, l': Link)
    requires |s.peers| == |c.neighbors| && WorkerAt(s, u, w) && LinkAt(s, u, v)
    requires WorkerWeight(Degree(c, u))(next) + LinkWeight(l')
             < WorkerWeight(Degree(c, u))(s.peers[u].workers[w]) + LinkWeight(s.links[(u, v)])
    ensures Measure(c, s.SetPeer(u, SetWorker(s.peers[u], w, next)).SetLink((u, v), l')) < Measure(c, s)
  {
    WorkerMoves(s.peers[u], w, next, Degree(c, u));
    PeerAndLink(c, s, u, SetWorker(s.peers[u], w, next), u, v, l');
  }

  lemma WorkerDecreases(c: Config, s: State, step: Step)
    requires c.Valid() && Enabled(c, s, step)
    requires step.DecideNext? || step.CheckTarget? || step.PushTarget?
    ensures Measure(c, Apply(c, s, step)) < Measure(c, s)
  {
    var u, w := step.u, step.w;
    var p, worker := s.peers[u], s.peers[u].workers[w];
    var degree := Degree(c, u);
    if step.DecideNext? {
      var v := worker.todo[0];
      var (next, l') := Decide(worker, s.links[(u, v)]);
      WorkerLinkDecreases(c, s, u, w, v, next, l');
    } else if step.CheckTarget? {
      var v := worker.targets[0];
      var (next, l') := Check(c, p, worker, s.links[(u, v)]);
      WorkerLinkDecreases(c, s, u, w, v, next, l');
    } else {
      var v := worker.target;
      var (next, l') := PushFrame(c, u, worker, s.links[(u, v)]);
      WorkerLinkDecreases(c, s, u, w, v, next, l');
    }
  }

  lemma TakeMoves(p: PeerState, w: nat, degree: nat)
    requires w < |p.workers| && p.workers[w].Idle? && p.queue != []
    ensures PeerWeight(SetWorker(p, w, Delaying(p.queue[0])).(queue := p.queue[1..]), degree) < PeerWeight(p, degree)
  {
    SumByUpdate(p.workers, w, Delaying(p.queue[0]), WorkerWeight(degree));
    assert SumBy(p.queue, QueueWeight(degree)) == (4 + 10 * degree) + SumBy(p.queue[1..], QueueWeight(degree));
  }

  lemma TakeDecreases(c: Config, s: State, u: Node, w: nat)
    requires c.Valid() && Enabled(c, s, TakeItem(u, w))
    ensures Measure(c, Apply(c, s, TakeItem(u, w))) < Measure(c, s)
  {
    var p := s.peers[u];
    TakeMoves(p, w, Degree(c, u));
    PeerAlone(c, s, u, SetWorker(p, w, Delaying(p.queue[0])).(queue := p.queue[1..]));
  }

  lemma BeginMoves(c: Config, u: Node, p: PeerState, w: nat)
    requires u < |c.neighbors| && w < |p.workers| && p.workers[w].Delaying?
    ensures PeerWeight(Begin(c, u, p, w), Degree(c, u)) < PeerWeight(p, Degree(c, u))
  {
    SumByUpdate(p.workers, w, Begin(c, u, p, w).workers[w], WorkerWeight(Degree(c, u)));
  }

  lemma BeginDecreases(c: Config, s: State, u: Node, w: nat)
    requires c.Valid() && Enabled(c, s, BeginForwarding(u, w))
    ensures Measure(c, Apply(c, s, BeginForwarding(u, w))) < Measure(c, s)
  {
    BeginMoves(c, u, s.peers[u], w);
    PeerAlone(c, s, u, Begin(c, u, s.peers[u], w));
  }

  lemma SelectMoves(p: PeerState, w: nat, m: Message, chosen: set<Node>, degree: nat)
    requires w < |p.workers| && p.workers[w].Deciding? && p.workers[w].todo == []
    ensures PeerWeight(SetWorker(p, w, Relaying(m, Keep(p.workers[w].eligible, chosen))), degree)
          < PeerWeight(p, degree)
  {
    WorkerMoves(p, w, Relaying(m, Keep(p.workers[w].eligible, chosen)), degree);
  }

  lemma SelectDecreases(c: Config, s: State, u: Node, w: nat, chosen: set<Node>)
    requires c.Valid() && Enabled(c, s, SelectTargets(u, w, chosen))
    ensures Measure(c, Apply(c, s, SelectTargets(u, w, chosen))) < Measure(c, s)
  {
    var p, worker := s.peers[u], s.peers[u].workers[w];
    var m := Outgoing(c.protocol, worker.item);
    SelectMoves(p, w, m, chosen, Degree(c, u));
    PeerAlone(c, s, u, SetWorker(p, w, Relaying(m, Keep(worker.eligible, chosen))));
  }

  lemma FinishDecreases(c: Config, s: State, u: Node, w: nat)
    requires c.Valid() && Enabled(c, s, FinishItem(u, w))
    ensures Measure(c, Apply(c, s, FinishItem(u, w))) < Measure(c, s)
  {
    WorkerMoves(s.peers[u], w, Idle, Degree(c, u));
    PeerAlone(c, s, u, SetWorker(s.peers[u], w, Idle));
  }

  // Handlers

  lemma BroadcastMoves(p: PeerState, k: nat, degree: nat)
    requires k < |p.handlers| && p.handlers[k].announce != []
    ensures
      var h := p.handlers[k];
      PeerWeight(p.(handlers := p.handlers[k := h.(announce := h.announce[1..])]), degree) + 8 == PeerWeight(p, degree)
  {
    var h := p.handlers[k];
    SumByUpdate(p.handlers, k, h.(announce := h.announce[1..]), HandlerWeight(degree));
  }

  lemma BroadcastDecreases(c: Config, s: State, u: Node, k: nat)
    requires c.Valid() && Enabled(c, s, BroadcastNext(u, k))
    ensures Measure(c, Apply(c, s, BroadcastNext(u, k))) < Measure(c, s)
  {
    var p, h := s.peers[u], s.peers[u].handlers[k];
    var v := h.announce[0];
    var l' := PushControl(s.links[(u, v)], h.item.message.id, c.edges[(u, v)].capacity);
    BroadcastMoves(p, k, Degree(c, u));
    PeerAndLink(c, s, u, p.(handlers := p.handlers[k := h.(announce := h.announce[1..])]), u, v, l');
  }

  lemma AdmitMoves(p: PeerState, k: nat, capacity: nat, degree: nat)
    requires k < |p.handlers|
    ensures PeerWeight(Admit(p, k, capacity), degree) < PeerWeight(p, degree)
  {
    SumByRemove(p.handlers, k, HandlerWeight(degree));
    SumByAppend(p.queue, p.handlers[k].item, QueueWeight(degree));
  }

  lemma AdmitDecreases(c: Config, s: State, u: Node, k: nat)
    requires c.Valid() && Enabled(c, s, AdmitItem(u, k))
    ensures Measure(c, Apply(c, s, AdmitItem(u, k))) < Measure(c, s)
  {
    AdmitMoves(s.peers[u], k, c.queueCapacity[u], Degree(c, u));
    PeerAlone(c, s, u, Admit(s.peers[u], k, c.queueCapacity[u]));
  }

  // Delivery

  /** A handler more weighs no more than an unseen message. */
  lemma HandlerMoves(p: PeerState, p': PeerState, h: Handler, degree: nat)
    requires p'.handlers == p.handlers + [h] && p'.queue == p.queue && p'.workers == p.workers
    requires |h.announce| <= degree
    ensures PeerWeight(p', degree) <= PeerWeight(p, degree) + UnseenWeight(degree)
  {
    SumByAppend(p.handlers, h, HandlerWeight(degree));
  }

  lemma UnseenDrops(issued: set<MessageId>, seen: set<MessageId>, id: MessageId, degree: nat)
    requires id in issued && id !in seen
    ensures Unseen(issued, seen, degree) == Unseen(issued, seen + {id}, degree) + UnseenWeight(degree)
  {
    assert issued - seen == issued - (seen + {id}) + {id};
  }

  lemma SeenOneMore(c: Config, s: State, v: Node, s': State, id: MessageId)
    requires v < |s.peers| == |c.neighbors| && |s'.peers| == |s.peers|
    requires s'.issued == s.issued && id in s.issued && id !in s.peers[v].arrival
    requires s'.peers[v].arrival.Keys == s.peers[v].arrival.Keys + {id}
    requires forall u: Node :: u < |s.peers| && u != v ==> s'.peers[u] == s.peers[u]
    ensures ToBeSeen(c, s') + UnseenWeight(Degree(c, v)) == ToBeSeen(c, s)
  {
    forall u: nat | u < |c.neighbors| && u != v ensures UnseenBy(c, s)(u) == UnseenBy(c, s')(u) {}
    SumToChange(|c.neighbors|, v, UnseenBy(c, s), UnseenBy(c, s'));
    UnseenDrops(s.issued, s.peers[v].arrival.Keys, id, Degree(c, v));
  }

  lemma AcceptMoves(c: Config, v: Node, p: PeerState, m: Message, from: Node, d: nat)
    requires v < |c.neighbors| && p.arrival.Keys == p.known.seen
    ensures
      var p' := AcceptMessage(c, v, p, m, from, d);
      if m.id in p.arrival then
        PeerWeight(p', Degree(c, v)) == PeerWeight(p, Degree(c, v)) && p'.arrival == p.arrival
      else
        && PeerWeight(p', Degree(c, v)) <= PeerWeight(p, Degree(c, v)) + UnseenWeight(Degree(c, v))
        && p'.arrival.Keys == p.arrival.Keys + {m.id}
  {
    if m.id !in p.arrival {
      var h := Handler(Item(m, Some(from)), Announce(c, v, Some(from)));
      HandlerMoves(p, AcceptMessage(c, v, p, m, from, d), h, Degree(c, v));
    }
  }

  lemma DataDecreases(c: Config, s: State, u: Node, v: Node, m: Message, d: nat, p': PeerState, l': Link)
    requires u < |s.peers| && v < |s.peers| == |c.neighbors| && (u, v) in s.links
    requires s.peers[v].arrival.Keys == s.peers[v].known.seen && m.id in s.issued
    requires p' == AcceptMessage(c, v, s.peers[v], m, u, d) && LinkWeight(l') < LinkWeight(s.links[(u, v)])
    ensures Measure(c, s.SetPeer(v, p').SetLink((u, v), l')) < Measure(c, s)
  {
    AcceptMoves(c, v, s.peers[v], m, u, d);
    if m.id in s.peers[v].arrival {
      PeerAndLink(c, s, v, p', u, v, l');
    } else {
      HeldChange(c, s.peers, v, p');
      LinksChange(c, s.links, u, v, l');
      SeenOneMore(c, s, v, s.SetPeer(v, p').SetLink((u, v), l'), m.id);
    }
  }

  lemma NoticeDecreases(c: Config, s: State, u: Node, v: Node, id: MessageId, l': Link)
    requires u < |s.peers| && v < |s.peers| == |c.neighbors| && (u, v) in s.links
    requires LinkWeight(l') < LinkWeight(s.links[(u, v)])
    ensures Measure(c, s.SetPeer(v, AcceptIDontWant(c, s.peers[v], id, u)).SetLink((u, v), l')) < Measure(c, s)
  {
    PeerAndLink(c, s, v, AcceptIDontWant(c, s.peers[v], id, u), u, v, l');
  }

  lemma DeliverDecreases(c: Config, s: State, u: Node, v: Node)
    requires c.Valid() && Inv(c, s) && Enabled(c, s, Deliver(u, v))
    ensures Measure(c, Apply(c, s, Deliver(u, v))) < Measure(c, s)
  {
    var l := s.links[(u, v)];
    var l' := l.(wire := l.wire[1..]);
    match l.wire[0] {
      case Data(m) =>
        WireHeadOk(c, s, u, v);
        ArrivedIsIssued(c, s, u, v, m.id);
        var d := Depth(s.peers[u], m.id);
        DataDecreases(c, s, u, v, m, d, AcceptMessage(c, v, s.peers[v], m, u, d), l');
      case IDontWant(id) =>
        NoticeDecreases(c, s, u, v, id, l');
    }
  }

  lemma ArrivedIsIssued(c: Config, s: State, u: Node, v: Node, id: MessageId)
    requires c.Valid() && Inv(c, s) && u < |s.peers| && v < |s.peers| && id in s.peers[u].arrival
    ensures id in s.issued && s.peers[v].arrival.Keys == s.peers[v].known.seen
  {
    assert PeerAt(c, s, v);
  }

  // Injection

  lemma FewerUnseen(a: set<MessageId>, b: set<MessageId>, weight: nat)
    requires a <= b
    ensures Times(|a|, weight) <= Times(|b|, weight)
  {
    assert b == a + (b - a);
    TimesMonotone(|a|, |b|, weight);
  }

  /** An id more among the issued ones; the peer that created it has seen it. */
  lemma IssueMoves(issued: set<MessageId>, seen: set<MessageId>, id: MessageId, degree: nat)
    ensures Unseen(issued + {id}, seen + {id}, degree) <= Unseen(issued, seen, degree)
    ensures Unseen(issued + {id}, seen, degree) <= Unseen(issued, seen, degree) + UnseenWeight(degree)
  {
    var before := issued - seen;
    FewerUnseen(issued + {id} - (seen + {id}), before, UnseenWeight(degree));
    FewerUnseen(issued + {id} - seen, before + {id}, UnseenWeight(degree));
    if id in before {
      assert before + {id} == before;
    }
  }

  lemma {:induction false} SumToBound(n: nat, f: nat -> nat, g: nat -> nat, h: nat -> nat)
    requires forall i: nat :: i < n ==> f(i) <= g(i) + h(i)
    ensures SumTo(n, f) <= SumTo(n, g) + SumTo(n, h)
  {
    if n > 0 {
      SumToBound(n - 1, f, g, h);
    }
  }

  ghost function OthersBurst(c: Config, u: Node): nat -> nat {
    (x: nat) => if x == u then 0 else UnseenWeight(Degree(c, x))
  }

  lemma IssueUnseen(c: Config, s: State, u: Node, s': State, id: MessageId)
    requires u < |s.peers| == |c.neighbors| && |s'.peers| == |s.peers| && s'.issued == s.issued + {id}
    requires s'.peers[u].arrival.Keys == s.peers[u].arrival.Keys + {id}
    requires forall x: Node :: x < |s.peers| && x != u ==> s'.peers[x] == s.peers[x]
    ensures ToBeSeen(c, s') + UnseenWeight(Degree(c, u)) + 1 <= ToBeSeen(c, s) + StepsPerInjection(c)
  {
    forall x: nat | x < |c.neighbors| ensures UnseenBy(c, s')(x) <= UnseenBy(c, s)(x) + OthersBurst(c, u)(x) {
      IssueMoves(s.issued, s.peers[x].arrival.Keys, id, Degree(c, x));
    }
    SumToBound(|c.neighbors|, UnseenBy(c, s'), UnseenBy(c, s), OthersBurst(c, u));
    SumToChange(|c.neighbors|, u, OthersBurst(c, u), Burst(c));
  }

  lemma CreateWeight(c: Config, u: Node, p: PeerState)
    requires u < |c.neighbors|
    ensures PeerWeight(Create(c, u, p), Degree(c, u)) <= PeerWeight(p, Degree(c, u)) + UnseenWeight(Degree(c, u))
  {
    var id := MessageId(u, p.sequence + 1);
    HandlerMoves(p, Create(c, u, p), Handler(Item(Message(id, 0, 0), None), Announce(c, u, None)), Degree(c, u));
  }

  lemma InjectIncreases(c: Config, s: State, u: Node)
    requires c.Valid() && Enabled(c, s, Inject(u))
    ensures Measure(c, Apply(c, s, Inject(u))) + 1 <= Measure(c, s) + StepsPerInjection(c)
  {
    var id := MessageId(u, s.peers[u].sequence + 1);
    CreateWeight(c, u, s.peers[u]);
    HeldChange(c, s.peers, u, Create(c, u, s.peers[u]));
    IssueUnseen(c, s, u, Apply(c, s, Inject(u)), id);
  }

  // Every step, every run

  lemma StepDecreases(c: Config, s: State, step: Step)
    requires c.Valid() && Inv(c, s) && Enabled(c, s, step) && !step.Inject?
    ensures Measure(c, Apply(c, s, step)) < Measure(c, s)
  {
    match step {
      case BroadcastNext(u, k) => BroadcastDecreases(c, s, u, k);
      case AdmitItem(u, k) => AdmitDecreases(c, s, u, k);
      case TakeItem(u, w) => TakeDecreases(c, s, u, w);
      case BeginForwarding(u, w) => BeginDecreases(c, s, u, w);
      case SelectTargets(u, w, chosen) => SelectDecreases(c, s, u, w, chosen);
      case FinishItem(u, w) => FinishDecreases(c, s, u, w);
      case DecideNext(_, _) => WorkerDecreases(c, s, step);
      case CheckTarget(_, _) => WorkerDecreases(c, s, step);
      case PushTarget(_, _) => WorkerDecreases(c, s, step);
      case Deliver(u, v) => DeliverDecreases(c, s, u, v);
      case _ => SenderDecreases(c, s, step);
    }
  }

  ghost function Injections(steps: seq<Step>): nat {
    if steps == [] then 0 else (if steps[0].Inject? then 1 else 0) + Injections(steps[1..])
  }

  ghost function Allowance(c: Config, injections: nat): nat {
    Times(injections, StepsPerInjection(c))
  }

  lemma StepBounded(c: Config, s: State, step: Step, rest: nat)
    requires c.Valid() && Inv(c, s) && Enabled(c, s, step)
    ensures Measure(c, Apply(c, s, step)) + 1 + Allowance(c, rest)
            <= Measure(c, s) + Allowance(c, if step.Inject? then 1 + rest else rest)
  {
    if step.Inject? {
      InjectIncreases(c, s, step.u);
    } else {
      StepDecreases(c, s, step);
    }
  }

  lemma StepBound(c: Config, s: State, steps: seq<Step>)
    requires c.Valid() && Inv(c, s) && steps != [] && Enabled(c, s, steps[0])
    ensures Measure(c, Apply(c, s, steps[0])) + 1 + Allowance(c, Injections(steps[1..]))
            <= Measure(c, s) + Allowance(c, Injections(steps))
  {
    var rest := Injections(steps[1..]);
    assert Injections(steps) == if steps[0].Inject? then 1 + rest else rest;
    StepBounded(c, s, steps[0], rest);
  }

  lemma {:induction false} RunBounded(c: Config, s: State, steps: seq<Step>, t: State)
    requires c.Valid() && Inv(c, s) && Run(c, s, steps, t)
    ensures |steps| + Measure(c, t) <= Measure(c, s) + Allowance(c, Injections(steps))
    decreases |steps|
  {
    if steps != [] {
      StepKeepsInv(c, s, steps[0]);
      StepBound(c, s, steps);
      RunBounded(c, Apply(c, s, steps[0]), steps[1..], t);
    }
  }

  lemma NewPeersHoldNothing(c: Config, s: State)
    requires Init(c, s)
    ensures Held(c, s.peers) == 0
  {
    forall u: nat | u < |c.neighbors| ensures HeldBy(c, s.peers)(u) == 0 {
      SumByZero(s.peers[u].workers, WorkerWeight(Degree(c, u)));
    }
    SumToZero(|c.neighbors|, HeldBy(c, s.peers));
  }

  lemma NothingToSee(c: Config, s: State)
    requires s.issued == {}
    ensures ToBeSeen(c, s) == 0
  {
    forall u: nat | u < |s.peers| ensures UnseenBy(c, s)(u) == 0 {
      assert s.issued - s.peers[u].arrival.Keys == {};
    }
    SumToZero(|c.neighbors|, UnseenBy(c, s));
  }

  lemma NewLinksEmpty(c: Config, links: map<Edge, Link>)
    requires forall e :: e in links ==> links[e] == NEW_LINK
    ensures OnLinks(c, links) == 0
  {
    var n := |c.neighbors|;
    forall u: nat | u < n ensures RowSums(n, LinkCells(links))(u) == 0 {
      SumToZero(n, Row(LinkCells(links), u));
    }
    SumToZero(n, RowSums(n, LinkCells(links)));
  }

  /**
   * Termination. Whatever the interleaving, the losses and the protocol, a run with k injections
   * has at most k * (1 + 5n + 18 * (sum of the degrees)) steps.
   */
  lemma Termination(c: Config, s: State, steps: seq<Step>, t: State)
    requires c.Valid() && Init(c, s) && Run(c, s, steps, t)
    ensures |steps| <= Injections(steps) * StepsPerInjection(c)
  {
    InitInv(c, s);
    NewPeersHoldNothing(c, s);
    NothingToSee(c, s);
    NewLinksEmpty(c, s.links);
    RunBounded(c, s, steps, t);
    TimesIsProduct(Injections(steps), StepsPerInjection(c));
  }
}
