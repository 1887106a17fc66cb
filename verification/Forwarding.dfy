/** Per-message knowledge of one peer: the state guarded by stateMu. */
module Forwarding {
  import opened Wire

  datatype Knowledge = Knowledge(duplicateSenders: set<Node>, dontWantPeers: set<Node>, forwardingStarted: bool)

  const NEW_KNOWLEDGE := Knowledge({}, {}, false)

  datatype Reason = DuplicateNeighbor | PeerDoesNotWant

  /** The value of the fields seen and knowledge. */
  datatype Known = Known(seen: set<MessageId>, knowledge: map<MessageId, Knowledge>) {

    /** What is known about a message, whether or not an entry exists yet. */
    function About(id: MessageId): Knowledge {
      if id in knowledge then knowledge[id] else NEW_KNOWLEDGE
    }

    function RegisterLocal(id: MessageId): Known {
      Known(seen + {id}, knowledge[id := About(id)])
    }

    /** The new state, and whether the message was a duplicate. */
    function RegisterReceived(protocol: Protocol, id: MessageId, from: Node): (Known, bool) {
      var about := About(id);
      if id !in seen then
        (Known(seen + {id}, knowledge[id := about]), false)
      else if protocol.DuplicateAware? && !about.forwardingStarted then
        (Known(seen, knowledge[id := about.(duplicateSenders := about.duplicateSenders + {from})]), true)
      else
        (Known(seen, knowledge[id := about]), true)
    }

    function RegisterIDontWant(id: MessageId, from: Node): Known {
      var about := About(id);
      Known(seen, knowledge[id := about.(dontWantPeers := about.dontWantPeers + {from})])
    }

    function Start(id: MessageId): Known {
      Known(seen, knowledge[id := About(id).(forwardingStarted := true)])
    }

    /** The neighbours a forwarding that starts now leaves out, with the recorded reason. */
    function Suppressed(protocol: Protocol, id: MessageId): map<Node, Reason> {
      match protocol
      case DuplicateAware => map v | v in About(id).duplicateSenders :: DuplicateNeighbor
      case IDontWantFlooding => map v | v in About(id).dontWantPeers :: PeerDoesNotWant
      case _ => map[]
    }

    predicate ShouldSuppressQueued(protocol: Protocol, id: MessageId, target: Node) {
      protocol.IDontWantFlooding? && target in About(id).dontWantPeers
    }
  }

  /** The fields of a peer under stateMu and the methods that hold that lock. */
  class Peer {
    const protocol: Protocol
    var seen: set<MessageId>
    var knowledge: map<MessageId, Knowledge>

    ghost function State(): Known
      reads this
    {
      Known(seen, knowledge)
    }

    constructor (protocol: Protocol)
      ensures this.protocol == protocol && State() == Known({}, map[])
    {
      this.protocol := protocol;
      seen, knowledge := {}, map[];
    }

    method RegisterLocalMessage(id: MessageId)
      modifies this
      ensures State() == old(State()).RegisterLocal(id)
    {
      seen := seen + {id};
      if id !in knowledge {
        knowledge := knowledge[id := NEW_KNOWLEDGE];
      } else {
        assert knowledge == knowledge[id := knowledge[id]];
      }
    }

    method RegisterReceivedMessage(id: MessageId, from: Node) returns (duplicate: bool)
      modifies this
      ensures (State(), duplicate) == old(State()).RegisterReceived(protocol, id, from)
      ensures duplicate == (id in old(seen)) && seen == old(seen) + {id}
      ensures duplicate && protocol.DuplicateAware? && !old(State()).About(id).forwardingStarted ==>
        from in State().About(id).duplicateSenders
    {
      ghost var before := State();
      if id !in knowledge {
        knowledge := knowledge[id := NEW_KNOWLEDGE];
      }
      assert knowledge == before.knowledge[id := before.About(id)];
      var state := knowledge[id];
      if id in seen {
        if protocol.DuplicateAware? && !state.forwardingStarted {
          var marked := state.(duplicateSenders := state.duplicateSenders + {from});
          knowledge := knowledge[id := marked];
          assert knowledge == before.knowledge[id := marked];
        }
        return true;
      }
      seen := seen + {id};
      return false;
    }

    method RegisterIDontWant(id: MessageId, from: Node)
      modifies this
      ensures State() == old(State()).RegisterIDontWant(id, from)
      ensures from in State().About(id).dontWantPeers
    {
      var state := if id in knowledge then knowledge[id] else NEW_KNOWLEDGE;
      knowledge := knowledge[id := state.(dontWantPeers := state.dontWantPeers + {from})];
    }

    method BeginForwarding(id: MessageId) returns (suppressed: map<Node, Reason>)
      modifies this
      ensures State() == old(State()).Start(id)
      ensures suppressed == old(State()).Suppressed(protocol, id)
      ensures State().About(id).forwardingStarted
      ensures forall v :: v in suppressed ==>
        if suppressed[v].DuplicateNeighbor?
        then protocol.DuplicateAware? && v in old(State()).About(id).duplicateSenders
        else protocol.IDontWantFlooding? && v in old(State()).About(id).dontWantPeers
    {
      var state := if id in knowledge then knowledge[id] else NEW_KNOWLEDGE;
      knowledge := knowledge[id := state.(forwardingStarted := true)];
      suppressed := map[];
      match protocol {
        case DuplicateAware =>
          suppressed := WithReason(state.duplicateSenders, DuplicateNeighbor);
        case IDontWantFlooding =>
          suppressed := WithReason(state.dontWantPeers, PeerDoesNotWant);
        case _ =>
      }
    }

    method ShouldSuppressQueued(id: MessageId, target: Node) returns (suppress: bool)
      ensures suppress == State().ShouldSuppressQueued(protocol, id, target)
    {
      if !protocol.IDontWantFlooding? || id !in knowledge {
        return false;
      }
      return target in knowledge[id].dontWantPeers;
    }
  }

  /** The loop that fills the suppression map from a set of peers. */
  method WithReason(peers: set<Node>, reason: Reason) returns (m: map<Node, Reason>)
    ensures m == map v | v in peers :: reason
  {
    m := map[];
    var rest := peers;
    while rest != {}
      invariant rest <= peers
      invariant m == map v | v in peers - rest :: reason
      decreases rest
    {
      var v :| v in rest;
      m := m[v := reason];
      rest := rest - {v};
    }
  }

  /** What can be learned of a message once its forwarding has started: a notice by one more peer. */
  ghost predicate OnlyNotices(before: Knowledge, after: Knowledge) {
    && after.forwardingStarted == before.forwardingStarted
    && after.duplicateSenders == before.duplicateSenders
    && before.dontWantPeers <= after.dontWantPeers
  }

  /**
   * The plan of duplicate-aware flooding is fixed when forwarding starts: a later duplicate from any
   * neighbour, and whatever happens to other messages, changes nothing known about this one. A notice
   * that a peer does not want the message still takes effect, under IDONTWANT flooding and for that
   * peer alone.
   */
  lemma PlanIsFixedOnceStarted(k: Known, protocol: Protocol, id: MessageId, other: MessageId, from: Node, target: Node)
    requires id in k.seen && k.About(id).forwardingStarted
    ensures k.RegisterLocal(other).About(id) == k.About(id)
    ensures k.RegisterReceived(protocol, other, from).0.About(id) == k.About(id)
    ensures k.Start(other).About(id) == k.About(id)
    ensures OnlyNotices(k.About(id), k.RegisterIDontWant(other, from).About(id))
    ensures k.RegisterIDontWant(id, from).ShouldSuppressQueued(protocol, id, target) <==>
      k.ShouldSuppressQueued(protocol, id, target) || (protocol.IDontWantFlooding? && target == from)
  {
  }
}
