/**
 * The peers of one experiment as a step system. A step is what one goroutine does inside one
 * lock region, or between two of them; the goroutines of all peers interleave freely.
 */
module Flooding {
  import opened Wrappers
  import opened Wire
  import opened Graph
  import opened Forwarding
  import opened EdgeSender
  import HopWave
  import Sequences

  type Edge = (Node, Node)

  datatype EdgeConfig = EdgeConfig(capacity: nat, lossRate: real)

  datatype Config = Config(
    protocol: Protocol,
    neighbors: Neighbors,
    queueCapacity: seq<nat>,
    workers: seq<nat>,
    edges: map<Edge, EdgeConfig>)
  {
    ghost predicate Valid() {
      && protocol.Valid()
      && Simple(neighbors)
      && |queueCapacity| == |workers| == |neighbors|
      && (forall u: Node :: u < |neighbors| ==> queueCapacity[u] > 0 && workers[u] > 0)
      && (forall u: Node, v: Node :: Adjacent(neighbors, u, v) ==> (u, v) in edges && edges[(u, v)].capacity > 0)
    }
  }

  /** History: from whom a peer first had a message, and how many hops from the origin. */
  datatype Arrival = Arrival(from: Option<Node>, depth: nat)

  /** A goroutine between registering a message and offering it to the process queue. */
  datatype Handler = Handler(item: Item, announce: seq<Node>)

  datatype Worker =
    | Idle
    | Delaying(item: Item)
    | Deciding(item: Item, suppressed: set<Node>, todo: seq<Node>, eligible: seq<Node>)
    | Relaying(outgoing: Message, targets: seq<Node>)
    | Pushing(outgoing: Message, target: Node, targets: seq<Node>)

  datatype PeerEvent =
    | Created(id: MessageId)
    | Received(from: Node, id: MessageId, duplicate: bool)
    | Processed(id: MessageId)
    | NodeDropped(id: MessageId)
    | ControlReceived(from: Node, id: MessageId)

  datatype PeerState = PeerState(
    known: Known,
    arrival: map<MessageId, Arrival>,
    sequence: nat,
    handlers: seq<Handler>,
    queue: seq<Item>,
    workers: seq<Worker>,
    log: multiset<PeerEvent>)

  /** What the sender goroutine of an edge holds, by how far send has come. */
  datatype Hand =
    | Empty
    | Taken(frame: Frame)
    | Drawing(frame: Frame)
    | Sleeping(frame: Frame)
    | Ready(frame: Frame)
    | Written(frame: Frame)

  /** Events a peer records about one neighbour. */
  datatype LinkEvent =
    | Sent(id: MessageId)
    | Suppressed(id: MessageId)
    | Dropped(id: MessageId)
    | ControlSent(id: MessageId)
    | ControlDropped(id: MessageId)

  datatype Link = Link(queues: Queues<Frame>, hand: Hand, wire: seq<Frame>, log: multiset<LinkEvent>) {
    function Record(event: LinkEvent): Link {
      this.(log := log + multiset{event})
    }
  }

  datatype State = State(peers: seq<PeerState>, links: map<Edge, Link>, issued: set<MessageId>) {
    function SetPeer(u: Node, p: PeerState): State
      requires u < |peers|
    {
      this.(peers := peers[u := p])
    }

    function SetLink(e: Edge, l: Link): State {
      this.(links := links[e := l])
    }
  }

  const NEW_LINK := Link(Queues([], []), Empty, [], multiset{})

  function NewPeer(workers: nat): PeerState {
    PeerState(Known({}, map[]), map[], 0, [], [], seq(workers, _ => Idle), multiset{})
  }

  ghost predicate Init(c: Config, s: State) {
    && |s.peers| == |c.neighbors| == |c.workers|
    && (forall u: Node :: u < |s.peers| ==> s.peers[u] == NewPeer(c.workers[u]))
    && (forall e :: e in s.links <==> Adjacent(c.neighbors, e.0, e.1))
    && (forall e :: e in s.links ==> s.links[e] == NEW_LINK)
    && s.issued == {}
  }

  // Outgoing traffic of one link

  /** enqueueControl. */
  function PushControl(l: Link, id: MessageId, capacity: nat): Link {
    var (queues, ok) := l.queues.Push(IDontWant(id), true, capacity);
    if ok then l.(queues := queues) else l.Record(ControlDropped(id))
  }

  /** The second half of enqueueData, after the suppression check. */
  function PushData(l: Link, m: Message, capacity: nat): Link {
    var (queues, ok) := l.queues.Push(Data(m), false, capacity);
    if ok then l.(queues := queues) else l.Record(Dropped(m.id))
  }

  function RecordDrop(l: Link, f: Frame): Link {
    match f
    case Data(m) => l.Record(Dropped(m.id))
    case IDontWant(id) => l.Record(ControlDropped(id))
  }

  function RecordSent(l: Link, f: Frame): Link {
    match f
    case Data(m) => l.Record(Sent(m.id))
    case IDontWant(id) => l.Record(ControlSent(id))
  }

  predicate SuppressFrame(c: Config, p: PeerState, f: Frame, target: Node) {
    f.Data? && p.known.ShouldSuppressQueued(c.protocol, f.message.id, target)
  }

  // The plan of one worker

  /** The neighbours in order, without the one that supplied the message. */
  function Others(neighbors: seq<Node>, from: Option<Node>): (r: seq<Node>)
    ensures |r| <= |neighbors|
    ensures forall v :: v in r ==> v in neighbors
  {
    if neighbors == [] then []
    else if from == Some(neighbors[0]) then Others(neighbors[1..], from)
    else [neighbors[0]] + Others(neighbors[1..], from)
  }

  function Keep(eligible: seq<Node>, chosen: set<Node>): (r: seq<Node>)
    ensures |r| <= |eligible|
    ensures forall v :: v in r ==> v in eligible
  {
    if eligible == [] then []
    else if eligible[0] in chosen then [eligible[0]] + Keep(eligible[1..], chosen)
    else Keep(eligible[1..], chosen)
  }

  function Relay(protocol: Protocol, item: Item): HopWave.Decision
    requires protocol.Valid()
  {
    if protocol.HopWave? then HopWave.DecideRelay(protocol.i, item.from.None?, item.message.wave)
    else HopWave.Decision(true, item.message.wave)
  }

  /** The targets of a relay: every eligible neighbour, or a fraction of them in a trough. */
  predicate TargetsAllowed(protocol: Protocol, item: Item, eligible: seq<Node>, chosen: set<Node>)
    requires protocol.Valid()
  {
    if Relay(protocol, item).crest then chosen == Sequences.Elements(eligible)
    else
      && protocol.HopWave?
      && chosen <= Sequences.Elements(eligible)
      && |chosen| == HopWave.TargetCount(protocol.f, |eligible|)
  }

  function Outgoing(protocol: Protocol, item: Item): Message
    requires protocol.Valid()
  {
    Message(item.message.id, NextHop(item.message.hop), Relay(protocol, item).outgoing)
  }

  // Incoming traffic of one peer

  function Announce(c: Config, u: Node, from: Option<Node>): seq<Node>
    requires u < |c.neighbors|
  {
    if c.protocol.IDontWantFlooding? then Others(c.neighbors[u], from) else []
  }

  function Create(c: Config, u: Node, p: PeerState): PeerState
    requires u < |c.neighbors|
  {
    var id := MessageId(u, p.sequence + 1);
    p.(known := p.known.RegisterLocal(id),
       arrival := p.arrival[id := Arrival(None, 0)],
       sequence := p.sequence + 1,
       handlers := p.handlers + [Handler(Item(Message(id, 0, 0), None), Announce(c, u, None))],
       log := p.log + multiset{Created(id)})
  }

  /** acceptMessage up to the broadcast; depth is the depth of the sender, for the history. */
  function AcceptMessage(c: Config, u: Node, p: PeerState, m: Message, from: Node, depth: nat): PeerState
    requires u < |c.neighbors|
  {
    var (known, duplicate) := p.known.RegisterReceived(c.protocol, m.id, from);
    var p' := p.(known := known, log := p.log + multiset{Received(from, m.id, duplicate)});
    if duplicate then p'
    else
      p'.(arrival := p.arrival[m.id := Arrival(Some(from), depth + 1)],
          handlers := p.handlers + [Handler(Item(m, Some(from)), Announce(c, u, Some(from)))])
  }

  function AcceptIDontWant(c: Config, p: PeerState, id: MessageId, from: Node): PeerState {
    if !c.protocol.IDontWantFlooding? then p
    else p.(known := p.known.RegisterIDontWant(id, from), log := p.log + multiset{ControlReceived(from, id)})
  }

  function Depth(p: PeerState, id: MessageId): nat {
    if id in p.arrival then p.arrival[id].depth else 0
  }

  function Accept(c: Config, u: Node, p: PeerState, f: Frame, from: Node, sender: PeerState): PeerState
    requires u < |c.neighbors|
  {
    match f
    case Data(m) => AcceptMessage(c, u, p, m, from, Depth(sender, m.id))
    case IDontWant(id) => AcceptIDontWant(c, p, id, from)
  }

  /** enqueueProcessing by the k-th handler. */
  function Admit(p: PeerState, k: nat, capacity: nat): PeerState
    requires k < |p.handlers|
  {
    var item := p.handlers[k].item;
    var p' := p.(handlers := p.handlers[..k] + p.handlers[k + 1..]);
    if |p.queue| < capacity then p'.(queue := p.queue + [item])
    else p'.(log := p.log + multiset{NodeDropped(item.message.id)})
  }

  // Steps

  datatype Step =
    | Inject(u: Node)
    | BroadcastNext(u: Node, k: nat)
    | AdmitItem(u: Node, k: nat)
    | TakeItem(u: Node, w: nat)
    | BeginForwarding(u: Node, w: nat)
    | DecideNext(u: Node, w: nat)
    | SelectTargets(u: Node, w: nat, chosen: set<Node>)
    | CheckTarget(u: Node, w: nat)
    | PushTarget(u: Node, w: nat)
    | FinishItem(u: Node, w: nat)
    | DequeueFrame(u: Node, v: Node)
    | FirstCheck(u: Node, v: Node)
    | DrawLoss(u: Node, v: Node, lost: bool)
    | SecondCheck(u: Node, v: Node)
    | WriteFrame(u: Node, v: Node, failed: bool)
    | RecordWrite(u: Node, v: Node)
    | Deliver(u: Node, v: Node)

  predicate WorkerAt(s: State, u: Node, w: nat) {
    u < |s.peers| && w < |s.peers[u].workers|
  }

  predicate HandlerAt(s: State, u: Node, k: nat) {
    u < |s.peers| && k < |s.peers[u].handlers|
  }

  predicate LinkAt(s: State, u: Node, v: Node) {
    u < |s.peers| && v < |s.peers| && (u, v) in s.links
  }

  predicate Enabled(c: Config, s: State, step: Step) {
    && |s.peers| == |c.neighbors| == |c.queueCapacity|
    && c.protocol.Valid()
    && s.links.Keys <= c.edges.Keys
    && match step
       case Inject(u) => u < |s.peers|
       case BroadcastNext(u, k) =>
         && HandlerAt(s, u, k)
         && s.peers[u].handlers[k].announce != []
         && LinkAt(s, u, s.peers[u].handlers[k].announce[0])
       case AdmitItem(u, k) => HandlerAt(s, u, k) && s.peers[u].handlers[k].announce == []
       case TakeItem(u, w) => WorkerAt(s, u, w) && s.peers[u].workers[w].Idle? && s.peers[u].queue != []
       case BeginForwarding(u, w) => WorkerAt(s, u, w) && s.peers[u].workers[w].Delaying?
       case DecideNext(u, w) =>
         && WorkerAt(s, u, w)
         && s.peers[u].workers[w].Deciding?
         && s.peers[u].workers[w].todo != []
         && LinkAt(s, u, s.peers[u].workers[w].todo[0])
       case SelectTargets(u, w, chosen) =>
         && WorkerAt(s, u, w)
         && s.peers[u].workers[w].Deciding?
         && s.peers[u].workers[w].todo == []
         && TargetsAllowed(c.protocol, s.peers[u].workers[w].item, s.peers[u].workers[w].eligible, chosen)
       case CheckTarget(u, w) =>
         && WorkerAt(s, u, w)
         && s.peers[u].workers[w].Relaying?
         && s.peers[u].workers[w].targets != []
         && LinkAt(s, u, s.peers[u].workers[w].targets[0])
       case PushTarget(u, w) =>
         && WorkerAt(s, u, w)
         && s.peers[u].workers[w].Pushing?
         && LinkAt(s, u, s.peers[u].workers[w].target)
       case FinishItem(u, w) =>
         WorkerAt(s, u, w) && s.peers[u].workers[w].Relaying? && s.peers[u].workers[w].targets == []
       case DequeueFrame(u, v) =>
         LinkAt(s, u, v) && s.links[(u, v)].hand.Empty? && !s.links[(u, v)].queues.Empty()
       case FirstCheck(u, v) => LinkAt(s, u, v) && s.links[(u, v)].hand.Taken?
       case DrawLoss(u, v, lost) =>
         LinkAt(s, u, v) && s.links[(u, v)].hand.Drawing? && (lost ==> c.edges[(u, v)].lossRate > 0.0)
       case SecondCheck(u, v) => LinkAt(s, u, v) && s.links[(u, v)].hand.Sleeping?
       case WriteFrame(u, v, _) => LinkAt(s, u, v) && s.links[(u, v)].hand.Ready?
       case RecordWrite(u, v) => LinkAt(s, u, v) && s.links[(u, v)].hand.Written?
       case Deliver(u, v) => LinkAt(s, u, v) && s.links[(u, v)].wire != []
  }

  /** One worker of one peer moves on. */
  function SetWorker(p: PeerState, w: nat, worker: Worker): PeerState
    requires w < |p.workers|
  {
    p.(workers := p.workers[w := worker])
  }

  function Begin(c: Config, u: Node, p: PeerState, w: nat): PeerState
    requires u < |c.neighbors| && w < |p.workers| && p.workers[w].Delaying?
  {
    var item := p.workers[w].item;
    var id := item.message.id;
    var suppressed := p.known.Suppressed(c.protocol, id).Keys;
    SetWorker(p, w, Deciding(item, suppressed, c.neighbors[u], []))
      .(known := p.known.Start(id), log := p.log + multiset{Processed(id)})
  }

  /** One turn of the loop that sorts the neighbours into suppressed and eligible. */
  function Decide(worker: Worker, l: Link): (Worker, Link)
    requires worker.Deciding? && worker.todo != []
  {
    var v := worker.todo[0];
    var next := worker.(todo := worker.todo[1..]);
    if worker.item.from == Some(v) then (next, l)
    else if v in worker.suppressed then (next, l.Record(Suppressed(worker.item.message.id)))
    else (next.(eligible := worker.eligible + [v]), l)
  }

  /** The suppression check at the head of enqueueData. */
  function Check(c: Config, p: PeerState, worker: Worker, l: Link): (Worker, Link)
    requires worker.Relaying? && worker.targets != []
  {
    var v, rest := worker.targets[0], worker.targets[1..];
    if p.known.ShouldSuppressQueued(c.protocol, worker.outgoing.id, v) then
      (Relaying(worker.outgoing, rest), l.Record(Suppressed(worker.outgoing.id)))
    else
      (Pushing(worker.outgoing, v, rest), l)
  }

  /** The second half of enqueueData, by the worker. */
  function PushFrame(c: Config, u: Node, worker: Worker, l: Link): (Worker, Link)
    requires worker.Pushing? && (u, worker.target) in c.edges
  {
    (Relaying(worker.outgoing, worker.targets), PushData(l, worker.outgoing, c.edges[(u, worker.target)].capacity))
  }

  /** A check of send: the frame is suppressed or the sender moves on. */
  function CheckHand(c: Config, p: PeerState, v: Node, l: Link, next: Hand): Link
    requires !l.hand.Empty?
  {
    if SuppressFrame(c, p, l.hand.frame, v) then l.(hand := Empty).Record(Suppressed(l.hand.frame.Id()))
    else l.(hand := next)
  }

  function TakeFrame(l: Link): Link
    requires !l.queues.Empty()
  {
    var (queues, item) := l.queues.Pop();
    l.(queues := queues, hand := Taken(item.value))
  }

  function Lose(l: Link, lost: bool): Link
    requires l.hand.Drawing?
  {
    if lost then RecordDrop(l.(hand := Empty), l.hand.frame) else l.(hand := Sleeping(l.hand.frame))
  }

  function Write(l: Link, failed: bool): Link
    requires l.hand.Ready?
  {
    var f := l.hand.frame;
    if failed then RecordDrop(l.(hand := Empty), f)
    else l.(hand := Written(f), wire := l.wire + [f])
  }

  /** The sent event follows the write; the frame may have been received in between. */
  function Recorded(l: Link): Link
    requires l.hand.Written?
  {
    RecordSent(l.(hand := Empty), l.hand.frame)
  }

  function Apply(c: Config, s: State, step: Step): State
    requires Enabled(c, s, step)
  {
    match step
    case Inject(u) =>
      s.SetPeer(u, Create(c, u, s.peers[u])).(issued := s.issued + {MessageId(u, s.peers[u].sequence + 1)})
    case BroadcastNext(u, k) =>
      var p, h := s.peers[u], s.peers[u].handlers[k];
      var e := (u, h.announce[0]);
      s.SetPeer(u, p.(handlers := p.handlers[k := h.(announce := h.announce[1..])]))
        .SetLink(e, PushControl(s.links[e], h.item.message.id, c.edges[e].capacity))
    case AdmitItem(u, k) =>
      s.SetPeer(u, Admit(s.peers[u], k, c.queueCapacity[u]))
    case TakeItem(u, w) =>
      var p := s.peers[u];
      s.SetPeer(u, SetWorker(p, w, Delaying(p.queue[0])).(queue := p.queue[1..]))
    case BeginForwarding(u, w) =>
      s.SetPeer(u, Begin(c, u, s.peers[u], w))
    case DecideNext(u, w) =>
      var p := s.peers[u];
      var e := (u, p.workers[w].todo[0]);
      var (worker, l) := Decide(p.workers[w], s.links[e]);
      s.SetPeer(u, SetWorker(p, w, worker)).SetLink(e, l)
    case SelectTargets(u, w, chosen) =>
      var p := s.peers[u];
      var worker := p.workers[w];
      s.SetPeer(u, SetWorker(p, w, Relaying(Outgoing(c.protocol, worker.item), Keep(worker.eligible, chosen))))
    case CheckTarget(u, w) =>
      var p := s.peers[u];
      var e := (u, p.workers[w].targets[0]);
      var (worker, l) := Check(c, p, p.workers[w], s.links[e]);
      s.SetPeer(u, SetWorker(p, w, worker)).SetLink(e, l)
    case PushTarget(u, w) =>
      var p := s.peers[u];
      var e := (u, p.workers[w].target);
      var (worker, l) := PushFrame(c, u, p.workers[w], s.links[e]);
      s.SetPeer(u, SetWorker(p, w, worker)).SetLink(e, l)
    case FinishItem(u, w) =>
      s.SetPeer(u, SetWorker(s.peers[u], w, Idle))
    case DequeueFrame(u, v) =>
      s.SetLink((u, v), TakeFrame(s.links[(u, v)]))
    case FirstCheck(u, v) =>
      var l := s.links[(u, v)];
      s.SetLink((u, v), CheckHand(c, s.peers[u], v, l, Drawing(l.hand.frame)))
    case DrawLoss(u, v, lost) =>
      s.SetLink((u, v), Lose(s.links[(u, v)], lost))
    case SecondCheck(u, v) =>
      var l := s.links[(u, v)];
      s.SetLink((u, v), CheckHand(c, s.peers[u], v, l, Ready(l.hand.frame)))
    case WriteFrame(u, v, failed) =>
      s.SetLink((u, v), Write(s.links[(u, v)], failed))
    case RecordWrite(u, v) =>
      s.SetLink((u, v), Recorded(s.links[(u, v)]))
    case Deliver(u, v) =>
      var l := s.links[(u, v)];
      s.SetPeer(v, Accept(c, v, s.peers[v], l.wire[0], u, s.peers[u]))
        .SetLink((u, v), l.(wire := l.wire[1..]))
  }

  // Runs

  /** The state after a list of steps, each enabled when it is taken. */
  ghost predicate Run(c: Config, s: State, steps: seq<Step>, t: State)
    decreases |steps|
  {
    if steps == [] then s == t
    else Enabled(c, s, steps[0]) && Run(c, Apply(c, s, steps[0]), steps[1..], t)
  }

  ghost predicate Reachable(c: Config, t: State) {
    exists s, steps :: Init(c, s) && Run(c, s, steps, t)
  }
}
