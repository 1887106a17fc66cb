/**
 * Injection and delivery keep the invariant, so it holds in every reachable state.
 *
 * These steps make a message known to one more peer, which is at once the source of its own links and
 * the target of the others: SourceGrows covers the first role, TargetFrame the second, and the link
 * that delivered the frame is treated by itself. The last part of the module puts the steps together
 * into the statement for whole runs.
 */
module FloodingArrivals {
  import opened Wrappers
  import opened Wire
  import opened Graph
  import opened Sums
  import opened Flooding
  import opened FloodingInvariant
  import opened FloodingSteps
  import Arithmetic
  import HopWave

  /** The edge x-v with another state of the peer v. */
  ghost predicate EdgeTo(c: Config, s: State, x: Node, v: Node, q: PeerState)
    requires c.Valid()
  {
    x < |s.peers| && (x, v) in s.links && EdgeOk(c, x, v, s.peers[x], s.links[(x, v)], q)
  }

  /** Only the peer v changes, and with it the ids that were ever issued. */
  lemma ArrivalStep(c: Config, s: State, v: Node, q': PeerState, issued: set<MessageId>)
    requires c.Valid() && Inv(c, s) && v < |s.peers| && PeerOk(c, v, q')
    requires forall y: Node {:trigger EdgeWith(c, s, v, y, q')} ::
      Adjacent(c.neighbors, v, y) ==> EdgeWith(c, s, v, y, q')
    requires forall x: Node {:trigger EdgeTo(c, s, x, v, q')} ::
      Adjacent(c.neighbors, x, v) ==> EdgeTo(c, s, x, v, q')
    requires IssuedOk(s.SetPeer(v, q').(issued := issued))
    ensures Inv(c, s.SetPeer(v, q').(issued := issued))
  {
    var s' := s.SetPeer(v, q').(issued := issued);
    forall x: Node | x < |s'.peers| ensures PeerAt(c, s', x) {
      assert PeerAt(c, s, x);
    }
    forall x: Node, y: Node | Adjacent(c.neighbors, x, y) ensures EdgeAt(c, s', x, y) {
      assert EdgeAt(c, s, x, y);
      if x == v {
        assert EdgeWith(c, s, v, y, q');
      } else if y == v {
        assert EdgeTo(c, s, x, v, q');
      }
    }
  }

  /** The peer v changes together with the link it receives from. */
  lemma DeliveryStep(c: Config, s: State, u: Node, v: Node, l': Link, q': PeerState)
    requires c.Valid() && Inv(c, s) && LinkAt(s, u, v) && PeerOk(c, v, q')
    requires EdgeOk(c, u, v, s.peers[u], l', q')
    requires forall y: Node {:trigger EdgeWith(c, s, v, y, q')} ::
      Adjacent(c.neighbors, v, y) ==> EdgeWith(c, s, v, y, q')
    requires forall x: Node {:trigger EdgeTo(c, s, x, v, q')} ::
      Adjacent(c.neighbors, x, v) && x != u ==> EdgeTo(c, s, x, v, q')
    requires IssuedOk(s.SetPeer(v, q'))
    ensures Inv(c, s.SetPeer(v, q').SetLink((u, v), l'))
  {
    var s' := s.SetPeer(v, q').SetLink((u, v), l');
    forall x: Node | x < |s'.peers| ensures PeerAt(c, s', x) {
      assert PeerAt(c, s, x);
    }
    forall x: Node, y: Node | Adjacent(c.neighbors, x, y) ensures EdgeAt(c, s', x, y) {
      assert EdgeAt(c, s, x, y);
      if x == v {
        assert EdgeWith(c, s, v, y, q');
      } else if y == v && x != u {
        assert EdgeTo(c, s, x, v, q');
      }
    }
  }

  /** A sending peer learns more: new arrivals that it has not begun to forward, new suppressions that are sound. */
  lemma SourceGrows(c: Config, u: Node, v: Node, p: PeerState, p': PeerState, l: Link, q: PeerState)
    requires c.protocol.Valid() && EdgeOk(c, u, v, p, l, q)
    requires p'.workers == p.workers
    requires forall id :: id in p.arrival ==> id in p'.arrival && p'.arrival[id] == p.arrival[id]
    requires forall id :: id in p'.arrival && id !in p.arrival ==> !Started(p, id)
    requires forall id :: Started(p', id) == Started(p, id)
    requires forall id :: v in p'.known.About(id).duplicateSenders ==>
      v in p.known.About(id).duplicateSenders || id in q.arrival
    requires forall id :: v in p'.known.About(id).dontWantPeers ==>
      v in p.known.About(id).dontWantPeers || id in q.arrival
    ensures EdgeOk(c, u, v, p', l, q)
  {
    forall id ensures Owed(p', v, id) == Owed(p, v, id) {}
    LinkLawMoves(c, v, p, l, p', l);
  }

  // Injection

  lemma PeerOf(c: Config, s: State, v: Node)
    requires c.Valid() && Inv(c, s) && v < |s.peers|
    ensures PeerOk(c, v, s.peers[v])
  {
    assert PeerAt(c, s, v);
  }

  ghost predicate FreshAt(u: Node, p: PeerState) {
    MessageId(u, p.sequence + 1) !in p.arrival
  }

  lemma CreateAbout(c: Config, u: Node, p: PeerState)
    requires u < |c.neighbors|
    ensures forall id :: Create(c, u, p).known.About(id) == p.known.About(id)
  {
  }

  lemma CreateCopies(c: Config, u: Node, p: PeerState)
    requires u < |c.neighbors| && OneCopy(p) && p.arrival.Keys == p.known.seen && FreshAt(u, p)
    ensures OneCopy(Create(c, u, p))
  {
    var p' := Create(c, u, p);
    var h := p'.handlers[|p.handlers|];
    forall id ensures CopiesAt(p', id) == Bit(id in p'.known.seen) {
      SumByAppend(p.handlers, h, HandlerFor(id));
      assert CopiesAt(p, id) == Bit(id in p.known.seen);
    }
  }

  lemma CreateContents(c: Config, u: Node, p: PeerState)
    requires c.protocol.Valid() && u < |c.neighbors| && ContentsOk(c, u, p) && FreshAt(u, p)
    ensures ContentsOk(c, u, Create(c, u, p))
  {
    var p' := Create(c, u, p);
    var h := p'.handlers[|p.handlers|];
    CreateAbout(c, u, p);
    ContentsKept(c, u, p, p');
    Arithmetic.MulMod(0, 0, UINT32);
    assert ItemOk(c, p', h.item);
    forall x | x in p'.handlers ensures x == h || x in p.handlers {}
  }

  lemma CreateHistory(c: Config, u: Node, p: PeerState)
    requires u < |c.neighbors| == |c.workers| && HistoryOk(c, u, p) && KnowledgeOk(c, u, p) && FreshAt(u, p)
    ensures HistoryOk(c, u, Create(c, u, p)) && KnowledgeOk(c, u, Create(c, u, p))
  {
    var p' := Create(c, u, p);
    CreateAbout(c, u, p);
    forall id | id in p'.arrival ensures ArrivalOk(c, u, p', id) {
      if id in p.arrival {
        assert ArrivalOk(c, u, p, id);
      }
    }
  }

  lemma CreatePeer(c: Config, u: Node, p: PeerState)
    requires c.protocol.Valid() && u < |c.neighbors| == |c.workers| && PeerOk(c, u, p)
    ensures PeerOk(c, u, Create(c, u, p)) && FreshAt(u, p)
  {
    CreateContents(c, u, p);
    CreateCopies(c, u, p);
    CreateHistory(c, u, p);
  }

  lemma CreateAsSource(c: Config, u: Node, v: Node, p: PeerState, l: Link, q: PeerState)
    requires c.protocol.Valid() && u < |c.neighbors| == |c.workers| && PeerOk(c, u, p) && EdgeOk(c, u, v, p, l, q)
    ensures EdgeOk(c, u, v, Create(c, u, p), l, q)
  {
    var id := MessageId(u, p.sequence + 1);
    CreateAbout(c, u, p);
    SourceGrows(c, u, v, p, Create(c, u, p), l, q);
  }

  lemma CreateAsTarget(c: Config, x: Node, u: Node, p: PeerState, l: Link, q: PeerState)
    requires c.protocol.Valid() && u < |c.neighbors| && EdgeOk(c, x, u, p, l, q) && FreshAt(u, q)
    ensures EdgeOk(c, x, u, p, l, Create(c, u, q))
  {
    TargetFrame(c, x, u, p, l, q, Create(c, u, q));
  }

  lemma CreateIssued(c: Config, s: State, u: Node)
    requires c.Valid() && IssuedOk(s) && u < |s.peers| == |c.neighbors|
    ensures
      var issued := s.issued + {MessageId(u, s.peers[u].sequence + 1)};
      IssuedOk(s.SetPeer(u, Create(c, u, s.peers[u])).(issued := issued))
  {
  }

  lemma CreateEdges(c: Config, s: State, u: Node, p': PeerState)
    requires c.Valid() && Inv(c, s) && u < |s.peers| == |c.neighbors| && p' == Create(c, u, s.peers[u])
    ensures forall y: Node {:trigger EdgeWith(c, s, u, y, p')} ::
      Adjacent(c.neighbors, u, y) ==> EdgeWith(c, s, u, y, p')
    ensures forall x: Node {:trigger EdgeTo(c, s, x, u, p')} ::
      Adjacent(c.neighbors, x, u) ==> EdgeTo(c, s, x, u, p')
  {
    assert PeerAt(c, s, u);
    forall y: Node | Adjacent(c.neighbors, u, y) ensures EdgeWith(c, s, u, y, p') {
      assert EdgeAt(c, s, u, y);
      CreateAsSource(c, u, y, s.peers[u], s.links[(u, y)], s.peers[y]);
    }
    forall x: Node | Adjacent(c.neighbors, x, u) ensures EdgeTo(c, s, x, u, p') {
      assert EdgeAt(c, s, x, u);
      CreateAsTarget(c, x, u, s.peers[x], s.links[(x, u)], s.peers[u]);
    }
  }

  lemma InjectParts(c: Config, s: State, u: Node, p': PeerState, issued: set<MessageId>)
    requires c.Valid() && Inv(c, s) && u < |s.peers| == |c.neighbors| && p' == Create(c, u, s.peers[u])
    requires issued == s.issued + {MessageId(u, s.peers[u].sequence + 1)}
    ensures Inv(c, s.SetPeer(u, p').(issued := issued))
  {
    PeerOf(c, s, u);
    CreatePeer(c, u, s.peers[u]);
    CreateIssued(c, s, u);
    CreateEdges(c, s, u, p');
    ArrivalStep(c, s, u, p', issued);
  }

  lemma InjectStep(c: Config, s: State, u: Node)
    requires c.Valid() && Inv(c, s) && Enabled(c, s, Inject(u))
    ensures Inv(c, Apply(c, s, Inject(u)))
  {
    InjectParts(c, s, u, Create(c, u, s.peers[u]), s.issued + {MessageId(u, s.peers[u].sequence + 1)});
  }

  // Delivery of a data frame: q receives from u; d is the depth of the message at u

  ghost predicate DeliveredOk(c: Config, v: Node, m: Message, d: nat)
    requires c.protocol.Valid()
  {
    m.hop == (d + 1) % UINT32 && m.wave == HopWave.WaveAt(c.protocol, d)
  }

  lemma AcceptAbout(c: Config, v: Node, q: PeerState, m: Message, u: Node, d: nat)
    requires v < |c.neighbors|
    ensures
      var q' := AcceptMessage(c, v, q, m, u, d);
      && (forall id :: Started(q', id) == Started(q, id))
      && (forall id :: q'.known.About(id).dontWantPeers == q.known.About(id).dontWantPeers)
      && (forall id :: q'.known.About(id).duplicateSenders == q.known.About(id).duplicateSenders
            || (id == m.id && c.protocol.DuplicateAware?
                && q'.known.About(id).duplicateSenders == q.known.About(id).duplicateSenders + {u}))
      && q'.known.seen == q.known.seen + {m.id}
      && q'.workers == q.workers
  {
  }

  lemma AcceptCopies(c: Config, v: Node, q: PeerState, m: Message, u: Node, d: nat)
    requires v < |c.neighbors| && OneCopy(q)
    ensures OneCopy(AcceptMessage(c, v, q, m, u, d))
  {
    var q' := AcceptMessage(c, v, q, m, u, d);
    AcceptAbout(c, v, q, m, u, d);
    forall id ensures CopiesAt(q', id) == Bit(id in q'.known.seen) {
      assert CopiesAt(q, id) == Bit(id in q.known.seen);
      if m.id !in q.known.seen {
        SumByAppend(q.handlers, Handler(Item(m, Some(u)), Announce(c, v, Some(u))), HandlerFor(id));
      }
    }
  }

  lemma AcceptContents(c: Config, v: Node, q: PeerState, m: Message, u: Node, d: nat)
    requires c.protocol.Valid() && v < |c.neighbors| && ContentsOk(c, v, q) && q.arrival.Keys == q.known.seen
    requires DeliveredOk(c, v, m, d)
    ensures ContentsOk(c, v, AcceptMessage(c, v, q, m, u, d))
  {
    var q' := AcceptMessage(c, v, q, m, u, d);
    AcceptAbout(c, v, q, m, u, d);
    ContentsKept(c, v, q, q');
    if m.id !in q.known.seen {
      var h := Handler(Item(m, Some(u)), Announce(c, v, Some(u)));
      assert ItemOk(c, q', h.item);
      forall x | x in q'.handlers ensures x == h || x in q.handlers {}
    }
  }

  lemma AcceptHistory(c: Config, v: Node, q: PeerState, m: Message, u: Node, d: nat)
    requires v < |c.neighbors| == |c.workers| && HistoryOk(c, v, q) && KnowledgeOk(c, v, q)
    requires u in c.neighbors[v]
    requires m.id !in q.arrival ==> m.id.origin != v
    ensures
      var q' := AcceptMessage(c, v, q, m, u, d);
      HistoryOk(c, v, q') && KnowledgeOk(c, v, q')
  {
    var q' := AcceptMessage(c, v, q, m, u, d);
    AcceptAbout(c, v, q, m, u, d);
    forall id | id in q'.arrival ensures ArrivalOk(c, v, q', id) {
      if id in q.arrival {
        assert ArrivalOk(c, v, q, id);
      }
    }
  }

  lemma AcceptPeer(c: Config, v: Node, q: PeerState, m: Message, u: Node, d: nat)
    requires c.protocol.Valid() && v < |c.neighbors| == |c.workers| && PeerOk(c, v, q)
    requires u in c.neighbors[v] && DeliveredOk(c, v, m, d)
    requires m.id !in q.arrival ==> m.id.origin != v
    ensures PeerOk(c, v, AcceptMessage(c, v, q, m, u, d))
  {
    AcceptContents(c, v, q, m, u, d);
    AcceptCopies(c, v, q, m, u, d);
    AcceptHistory(c, v, q, m, u, d);
  }

  /** The receiver as the sender of its own links; r is the peer at the other end. */
  lemma AcceptAsSource(c: Config, v: Node, y: Node, q: PeerState, l: Link, r: PeerState, m: Message, u: Node, d: nat)
    requires c.protocol.Valid() && v < |c.neighbors| == |c.workers| && PeerOk(c, v, q) && EdgeOk(c, v, y, q, l, r)
    requires y == u ==> m.id in r.arrival
    ensures EdgeOk(c, v, y, AcceptMessage(c, v, q, m, u, d), l, r)
  {
    AcceptAbout(c, v, q, m, u, d);
    SourceGrows(c, v, y, q, AcceptMessage(c, v, q, m, u, d), l, r);
  }

  lemma AcceptAsTarget(c: Config, x: Node, v: Node, p: PeerState, l: Link, q: PeerState, m: Message, u: Node, d: nat)
    requires c.protocol.Valid() && v < |c.neighbors| && EdgeOk(c, x, v, p, l, q)
    requires x != u && q.arrival.Keys == q.known.seen
    ensures EdgeOk(c, x, v, p, l, AcceptMessage(c, v, q, m, u, d))
  {
    TargetFrame(c, x, v, p, l, q, AcceptMessage(c, v, q, m, u, d));
  }

  lemma AcceptWire(c: Config, u: Node, v: Node, l: Link, q: PeerState, d: nat)
    requires v < |c.neighbors| && WireLaw(u, l, q) && ReceiptsOk(u, q) && q.arrival.Keys == q.known.seen
    requires l.wire != [] && l.wire[0].Data?
    ensures
      var q' := AcceptMessage(c, v, q, l.wire[0].message, u, d);
      WireLaw(u, l.(wire := l.wire[1..]), q') && ReceiptsOk(u, q')
  {
    var l' := l.(wire := l.wire[1..]);
    var q' := AcceptMessage(c, v, q, l.wire[0].message, u, d);
    forall id ensures SumBy(l'.wire, DataFor(id)) + q'.log[Received(u, id, false)] + q'.log[Received(u, id, true)]
                      == l'.log[Sent(id)] + Unrecorded(l', id) {
      assert SumBy(l.wire, DataFor(id)) == DataFor(id)(l.wire[0]) + SumBy(l'.wire, DataFor(id));
    }
  }

  lemma AcceptSupplier(c: Config, u: Node, v: Node, p: PeerState, q: PeerState, m: Message)
    requires v < |c.neighbors| && SupplierOk(u, p, q) && m.id in p.arrival && q.arrival.Keys == q.known.seen
    ensures SupplierOk(u, p, AcceptMessage(c, v, q, m, u, Depth(p, m.id)))
    ensures forall id :: id in q.arrival ==> id in AcceptMessage(c, v, q, m, u, Depth(p, m.id)).arrival
  {
  }

  lemma AcceptOnLink(c: Config, u: Node, v: Node, p: PeerState, l: Link, q: PeerState)
    requires c.protocol.Valid() && v < |c.neighbors| && EdgeOk(c, u, v, p, l, q) && q.arrival.Keys == q.known.seen
    requires l.wire != [] && l.wire[0].Data?
    ensures
      var m := l.wire[0].message;
      EdgeOk(c, u, v, p, l.(wire := l.wire[1..]), AcceptMessage(c, v, q, m, u, Depth(p, m.id)))
  {
    var m := l.wire[0].message;
    var d := Depth(p, m.id);
    assert FrameOk(c, p, l.wire[0]);
    AcceptWire(c, u, v, l, q, d);
    var l' := l.(wire := l.wire[1..]);
    assert LinkContents(c, p, l');
    AcceptSupplier(c, u, v, p, q, m);
    LinkLawMoves(c, v, p, l, p, l');
    assert forall id :: l'.log[Suppressed(id)] == l.log[Suppressed(id)];
  }

  lemma AcceptEdges(c: Config, s: State, u: Node, v: Node, m: Message, d: nat, q': PeerState)
    requires c.Valid() && Inv(c, s) && u < |s.peers| && v < |s.peers| == |c.neighbors|
    requires m.id in s.peers[u].arrival && q' == AcceptMessage(c, v, s.peers[v], m, u, d)
    ensures forall y: Node {:trigger EdgeWith(c, s, v, y, q')} ::
      Adjacent(c.neighbors, v, y) ==> EdgeWith(c, s, v, y, q')
    ensures forall x: Node {:trigger EdgeTo(c, s, x, v, q')} ::
      Adjacent(c.neighbors, x, v) && x != u ==> EdgeTo(c, s, x, v, q')
  {
    assert PeerAt(c, s, v);
    forall y: Node | Adjacent(c.neighbors, v, y) ensures EdgeWith(c, s, v, y, q') {
      assert EdgeAt(c, s, v, y);
      AcceptAsSource(c, v, y, s.peers[v], s.links[(v, y)], s.peers[y], m, u, d);
    }
    forall x: Node | Adjacent(c.neighbors, x, v) && x != u ensures EdgeTo(c, s, x, v, q') {
      assert EdgeAt(c, s, x, v);
      AcceptAsTarget(c, x, v, s.peers[x], s.links[(x, v)], s.peers[v], m, u, d);
    }
  }

  ghost predicate HeadIs(s: State, u: Node, v: Node, f: Frame) {
    LinkAt(s, u, v) && s.links[(u, v)].wire != [] && s.links[(u, v)].wire[0] == f
  }

  lemma WireHeadOk(c: Config, s: State, u: Node, v: Node)
    requires c.Valid() && Inv(c, s) && LinkAt(s, u, v)
    requires s.links[(u, v)].wire != []
    ensures FrameOk(c, s.peers[u], s.links[(u, v)].wire[0])
    ensures Adjacent(c.neighbors, u, v) && u in c.neighbors[v]
    ensures EdgeOk(c, u, v, s.peers[u], s.links[(u, v)], s.peers[v]) && PeerOk(c, v, s.peers[v])
  {
    assert EdgeAt(c, s, u, v) && PeerAt(c, s, v);
  }

  lemma AcceptIssuedStep(c: Config, s: State, u: Node, v: Node, m: Message, d: nat)
    requires c.Valid() && Inv(c, s) && u < |s.peers| && v < |s.peers| && m.id in s.peers[u].arrival
    ensures IssuedOk(s.SetPeer(v, AcceptMessage(c, v, s.peers[v], m, u, d)))
    ensures m.id !in s.peers[v].arrival ==> m.id.origin != v
  {
    assert PeerAt(c, s, v);
  }

  lemma WireHeadFrame(c: Config, s: State, u: Node, v: Node, f: Frame)
    requires c.Valid() && Inv(c, s) && HeadIs(s, u, v, f)
    ensures FrameOk(c, s.peers[u], f) && u in c.neighbors[v]
  {
    WireHeadOk(c, s, u, v);
  }

  lemma AcceptPeerStep(c: Config, s: State, u: Node, v: Node, m: Message, d: nat)
    requires c.Valid() && Inv(c, s) && HeadIs(s, u, v, Data(m)) && d == Depth(s.peers[u], m.id)
    ensures m.id in s.peers[u].arrival
    ensures PeerOk(c, v, AcceptMessage(c, v, s.peers[v], m, u, d))
  {
    WireHeadFrame(c, s, u, v, Data(m));
    PeerOf(c, s, v);
    AcceptIssuedStep(c, s, u, v, m, d);
    AcceptPeer(c, v, s.peers[v], m, u, d);
  }

  lemma AcceptLinkStep(c: Config, s: State, u: Node, v: Node, m: Message, d: nat, l': Link)
    requires c.Valid() && Inv(c, s) && HeadIs(s, u, v, Data(m)) && d == Depth(s.peers[u], m.id)
    requires l' == s.links[(u, v)].(wire := s.links[(u, v)].wire[1..])
    ensures EdgeOk(c, u, v, s.peers[u], l', AcceptMessage(c, v, s.peers[v], m, u, d))
  {
    WireHeadOk(c, s, u, v);
    AcceptOnLink(c, u, v, s.peers[u], s.links[(u, v)], s.peers[v]);
  }

  lemma DeliverDataParts(c: Config, s: State, u: Node, v: Node, m: Message, d: nat, l': Link, q': PeerState)
    requires c.Valid() && Inv(c, s) && HeadIs(s, u, v, Data(m)) && d == Depth(s.peers[u], m.id)
    requires l' == s.links[(u, v)].(wire := s.links[(u, v)].wire[1..])
    requires v < |c.neighbors| && q' == AcceptMessage(c, v, s.peers[v], m, u, d)
    ensures Inv(c, s.SetPeer(v, q').SetLink((u, v), l'))
  {
    AcceptPeerStep(c, s, u, v, m, d);
    AcceptIssuedStep(c, s, u, v, m, d);
    AcceptLinkStep(c, s, u, v, m, d, l');
    AcceptEdges(c, s, u, v, m, d, q');
    DeliveryStep(c, s, u, v, l', q');
  }

  lemma DeliverData(c: Config, s: State, u: Node, v: Node)
    requires c.Valid() && Inv(c, s) && Enabled(c, s, Deliver(u, v)) && s.links[(u, v)].wire[0].Data?
    ensures Inv(c, Apply(c, s, Deliver(u, v)))
  {
    var l := s.links[(u, v)];
    var m := l.wire[0].message;
    var d := Depth(s.peers[u], m.id);
    DeliverDataParts(c, s, u, v, m, d, l.(wire := l.wire[1..]), AcceptMessage(c, v, s.peers[v], m, u, d));
  }

  // Delivery of a control frame

  lemma NoticeAbout(c: Config, q: PeerState, id: MessageId, u: Node)
    ensures
      var q' := AcceptIDontWant(c, q, id, u);
      && (forall x :: Started(q', x) == Started(q, x))
      && (forall x :: q'.known.About(x).duplicateSenders == q.known.About(x).duplicateSenders)
      && (forall x :: q'.known.About(x).dontWantPeers == q.known.About(x).dontWantPeers
            || (x == id && c.protocol.IDontWantFlooding?
                && q'.known.About(x).dontWantPeers == q.known.About(x).dontWantPeers + {u}))
      && SameAsTarget(q, q')
      && q'.known.seen == q.known.seen
      && q'.workers == q.workers
  {
  }

  lemma NoticePeer(c: Config, v: Node, q: PeerState, id: MessageId, u: Node)
    requires c.protocol.Valid() && v < |c.neighbors| == |c.workers| && PeerOk(c, v, q)
    ensures PeerOk(c, v, AcceptIDontWant(c, q, id, u))
  {
    var q' := AcceptIDontWant(c, q, id, u);
    NoticeAbout(c, q, id, u);
    ContentsKept(c, v, q, q');
    forall x ensures CopiesAt(q', x) == CopiesAt(q, x) {}
    forall x | x in q'.arrival ensures ArrivalOk(c, v, q', x) {
      assert ArrivalOk(c, v, q, x);
    }
  }

  lemma NoticeAsSource(c: Config, v: Node, y: Node, q: PeerState, l: Link, r: PeerState, id: MessageId, u: Node)
    requires c.protocol.Valid() && EdgeOk(c, v, y, q, l, r)
    requires y == u ==> id in r.arrival
    ensures EdgeOk(c, v, y, AcceptIDontWant(c, q, id, u), l, r)
  {
    NoticeAbout(c, q, id, u);
    SourceGrows(c, v, y, q, AcceptIDontWant(c, q, id, u), l, r);
  }

  lemma NoticeAsTarget(c: Config, x: Node, v: Node, p: PeerState, l: Link, q: PeerState, id: MessageId, u: Node)
    requires c.protocol.Valid() && EdgeOk(c, x, v, p, l, q)
    ensures EdgeOk(c, x, v, p, l, AcceptIDontWant(c, q, id, u))
  {
    NoticeAbout(c, q, id, u);
    TargetFrame(c, x, v, p, l, q, AcceptIDontWant(c, q, id, u));
  }

  lemma NoticeEdges(c: Config, s: State, u: Node, v: Node, id: MessageId, q': PeerState)
    requires c.Valid() && Inv(c, s) && u < |s.peers| && v < |s.peers|
    requires id in s.peers[u].arrival && q' == AcceptIDontWant(c, s.peers[v], id, u)
    ensures forall y: Node {:trigger EdgeWith(c, s, v, y, q')} ::
      Adjacent(c.neighbors, v, y) ==> EdgeWith(c, s, v, y, q')
    ensures forall x: Node {:trigger EdgeTo(c, s, x, v, q')} ::
      Adjacent(c.neighbors, x, v) && x != u ==> EdgeTo(c, s, x, v, q')
  {
    forall y: Node | Adjacent(c.neighbors, v, y) ensures EdgeWith(c, s, v, y, q') {
      assert EdgeAt(c, s, v, y);
      NoticeAsSource(c, v, y, s.peers[v], s.links[(v, y)], s.peers[y], id, u);
    }
    forall x: Node | Adjacent(c.neighbors, x, v) && x != u ensures EdgeTo(c, s, x, v, q') {
      assert EdgeAt(c, s, x, v);
      NoticeAsTarget(c, x, v, s.peers[x], s.links[(x, v)], s.peers[v], id, u);
    }
  }

  lemma NoticeIssued(c: Config, s: State, v: Node, id: MessageId, u: Node)
    requires IssuedOk(s) && v < |s.peers|
    ensures IssuedOk(s.SetPeer(v, AcceptIDontWant(c, s.peers[v], id, u)))
  {
  }

  lemma DeliverControl(c: Config, s: State, u: Node, v: Node)
    requires c.Valid() && Inv(c, s) && Enabled(c, s, Deliver(u, v)) && s.links[(u, v)].wire[0].IDontWant?
    ensures Inv(c, Apply(c, s, Deliver(u, v)))
  {
    var l := s.links[(u, v)];
    var l' := l.(wire := l.wire[1..]);
    var id := l.wire[0].control;
    var q' := AcceptIDontWant(c, s.peers[v], id, u);
    WireHeadOk(c, s, u, v);
    NoticePeer(c, v, s.peers[v], id, u);
    NoticeIssued(c, s, v, id, u);
    NoticeAsTarget(c, u, v, s.peers[u], l', s.peers[v], id, u);
    NoticeEdges(c, s, u, v, id, q');
    DeliveryStep(c, s, u, v, l', q');
  }

  // Every step, every run

  lemma StepKeepsInv(c: Config, s: State, step: Step)
    requires c.Valid() && Inv(c, s) && Enabled(c, s, step)
    ensures Inv(c, Apply(c, s, step))
  {
    match step {
      case Inject(u) => InjectStep(c, s, u);
      case BroadcastNext(u, k) => BroadcastStep(c, s, u, k);
      case AdmitItem(u, k) => AdmitStep(c, s, u, k);
      case TakeItem(u, w) => TakeStep(c, s, u, w);
      case BeginForwarding(u, w) => BeginStep(c, s, u, w);
      case DecideNext(u, w) => DecideStep(c, s, u, w);
      case SelectTargets(u, w, chosen) => SelectStep(c, s, u, w, chosen);
      case CheckTarget(u, w) => CheckStep(c, s, u, w);
      case PushTarget(u, w) => PushStep(c, s, u, w);
      case FinishItem(u, w) => FinishStep(c, s, u, w);
      case Deliver(u, v) =>
        if s.links[(u, v)].wire[0].Data? {
          DeliverData(c, s, u, v);
        } else {
          DeliverControl(c, s, u, v);
        }
      case _ => SenderSteps(c, s, step);
    }
  }

  lemma {:induction false} RunKeepsInv(c: Config, s: State, steps: seq<Step>, t: State)
    requires c.Valid() && Inv(c, s) && Run(c, s, steps, t)
    ensures Inv(c, t)
    decreases |steps|
  {
    if steps != [] {
      StepKeepsInv(c, s, steps[0]);
      RunKeepsInv(c, Apply(c, s, steps[0]), steps[1..], t);
    }
  }

  lemma ReachableInv(c: Config, t: State)
    requires c.Valid() && Reachable(c, t)
    ensures Inv(c, t)
  {
    var s, steps :| Init(c, s) && Run(c, s, steps, t);
    InitInv(c, s);
    RunKeepsInv(c, s, steps, t);
  }
}
