/** The Swarm coordinator: registrations, their freeze, and the configuration built from them. */
module SwarmCoordinator {
  import opened RuntimeConfigs
  import opened Sequences
  import opened Wrappers

  datatype Phase = WaitingForPeers | ConfigReady | WaitingForReadiness | Completed | Failed

  datatype RegisterError =
    | SlotOutside(slot: int)
    | InvalidPeerID
    | InvalidAddress
    | ControlURLRequired
    | RegistrationClosed(phase: Phase)

  datatype RunError = OnlyRegistered(count: nat, expected: nat) | BuildTooEarly | ExperimentFailed

  /** What the coordinator's fields hold; token is the one place of the `changed` channel. */
  datatype View = View(
    registrations: Registrations,
    runtime: map<int, NodeConfig>,
    endpoints: map<NodeId, string>,
    phase: Phase,
    error: Option<RunError>,
    token: bool)

  /** The checks on a request that need no lock; what the libraries say of it comes as two flags. */
  function Malformed(n: nat, request: Registration, peerDecodes: bool, addressParses: bool): Option<RegisterError> {
    if request.slot < 1 || request.slot > n then Some(SlotOutside(request.slot))
    else if !peerDecodes then Some(InvalidPeerID)
    else if !addressParses then Some(InvalidAddress)
    else if request.controlURL == "" then Some(ControlURLRequired)
    else None
  }

  /** What a request must be, however the checks are ordered. */
  ghost predicate WellFormed(n: nat, request: Registration, peerDecodes: bool, addressParses: bool) {
    1 <= request.slot <= n && peerDecodes && addressParses && request.controlURL != ""
  }

  ghost function Held(registrations: Registrations, slot: int): Option<Registration> {
    if slot in registrations then Some(registrations[slot]) else None
  }

  /** The request is in its slot, in place of whatever was there, and every other slot is as before. */
  ghost predicate Stored(before: Registrations, request: Registration, after: Registrations) {
    && Held(after, request.slot) == Some(request)
    && forall other :: other != request.slot ==> Held(after, other) == Held(before, other)
  }

  /**
   * An answer without an error means a well-formed request. While the coordinator waits, every such
   * request is accepted and stored; a request with an error, or a later one, changes nothing.
   */
  function Registered(n: nat, v: View, request: Registration, peerDecodes: bool, addressParses: bool)
    : (r: (View, Option<RegisterError>))
    ensures r.1.None? ==> WellFormed(n, request, peerDecodes, addressParses)
    ensures v.phase.WaitingForPeers? && WellFormed(n, request, peerDecodes, addressParses) ==>
      r.1.None? && Stored(v.registrations, request, r.0.registrations) && r.0.token
    ensures r.1.Some? || !v.phase.WaitingForPeers? ==> r.0 == v
  {
    var malformed := Malformed(n, request, peerDecodes, addressParses);
    if malformed.Some? then (v, malformed)
    else if !v.phase.WaitingForPeers? then
      if request.slot in v.registrations && v.registrations[request.slot].peerID == request.peerID then (v, None)
      else (v, Some(RegistrationClosed(v.phase)))
    else (v.(registrations := v.registrations[request.slot := request], token := true), None)
  }

  /** The configurations of the first k slots. */
  ghost function RuntimeUpTo(t: Topology, registrations: Registrations, runtime: map<int, NodeConfig>, k: nat)
    : map<int, NodeConfig>
    requires Buildable(t, registrations) && k <= |t.nodes|
  {
    if k == 0 then runtime
    else RuntimeUpTo(t, registrations, runtime, k - 1)[k := ConfigOf(t, registrations, k - 1)]
  }

  ghost function EndpointsUpTo(t: Topology, registrations: Registrations, endpoints: map<NodeId, string>, k: nat)
    : map<NodeId, string>
    requires Buildable(t, registrations) && k <= |t.nodes|
  {
    if k == 0 then endpoints
    else EndpointsUpTo(t, registrations, endpoints, k - 1)[t.nodes[k - 1] := registrations[k].controlURL]
  }

  ghost function Built(t: Topology, v: View): View
    requires Buildable(t, v.registrations)
  {
    v.(runtime := RuntimeUpTo(t, v.registrations, v.runtime, |t.nodes|),
       endpoints := EndpointsUpTo(t, v.registrations, v.endpoints, |t.nodes|),
       phase := ConfigReady)
  }

  /** Registrations are kept under their own slot, a slot of the topology. */
  ghost predicate SlotsInRange(n: nat, registrations: Registrations) {
    forall slot :: slot in registrations ==> 1 <= slot <= n && registrations[slot].slot == slot
  }

  function SlotSet(n: nat): (s: set<int>)
    ensures |s| == n && forall x :: x in s <==> 1 <= x <= n
  {
    if n == 0 then {} else SlotSet(n - 1) + {n}
  }

  /** The count the coordinator compares says exactly that every slot is filled. */
  lemma CountMeansFull(n: nat, registrations: Registrations)
    requires SlotsInRange(n, registrations)
    ensures |registrations| == n <==> AllSlots(n, registrations)
    ensures |registrations| <= n
  {
    var keys := registrations.Keys;
    assert keys <= SlotSet(n);
    SubsetSize(keys, SlotSet(n));
    if |registrations| == n {
      SubsetFull(keys, SlotSet(n));
    }
    if AllSlots(n, registrations) {
      assert keys == SlotSet(n);
    }
  }

  class Coordinator {
    const topology: Topology
    var registrations: Registrations
    var runtime: map<int, NodeConfig>
    var endpoints: map<NodeId, string>
    var phase: Phase
    var error: Option<RunError>
    var token: bool

    ghost predicate Valid()
      reads this
    {
      topology.Valid() && SlotsInRange(|topology.nodes|, registrations)
    }

    ghost function Abstract(): View
      reads this
    {
      View(registrations, runtime, endpoints, phase, error, token)
    }

    constructor (topology: Topology)
      requires topology.Valid()
      ensures this.topology == topology && Valid()
      ensures Abstract() == View(map[], map[], map[], WaitingForPeers, None, false)
    {
      this.topology := topology;
      registrations, runtime, endpoints := map[], map[], map[];
      phase, error, token := WaitingForPeers, None, false;
    }

    method Register(request: Registration, peerDecodes: bool, addressParses: bool)
      returns (refused: Option<RegisterError>)
      requires Valid()
      modifies this`registrations, this`token
      ensures Valid()
      ensures (Abstract(), refused)
           == Registered(|topology.nodes|, old(Abstract()), request, peerDecodes, addressParses)
      ensures old(phase).WaitingForPeers? ==>
        && (refused.None? <==> WellFormed(|topology.nodes|, request, peerDecodes, addressParses))
        && (refused.None? ==> Stored(old(registrations), request, registrations) && token)
    {
      if request.slot < 1 || request.slot > |topology.nodes| {
        return Some(SlotOutside(request.slot));
      }
      if !peerDecodes {
        return Some(InvalidPeerID);
      }
      if !addressParses {
        return Some(InvalidAddress);
      }
      if request.controlURL == "" {
        return Some(ControlURLRequired);
      }
      if phase != WaitingForPeers {
        if request.slot in registrations && registrations[request.slot].peerID == request.peerID {
          return None;
        }
        return Some(RegistrationClosed(phase));
      }
      registrations := registrations[request.slot := request];
      token := true;
      return None;
    }

    /** The directory of the frozen registrations, and the control endpoint of every node. */
    static method BuildDirectory(t: Topology, registrations: Registrations, known: map<NodeId, string>)
      returns (byNode: map<NodeId, Registration>, indexByNode: map<NodeId, nat>, endpoints: map<NodeId, string>)
      requires Buildable(t, registrations)
      ensures Directory(t, registrations, byNode, indexByNode)
      ensures endpoints == EndpointsUpTo(t, registrations, known, |t.nodes|)
    {
      byNode, indexByNode, endpoints := map[], map[], known;
      var index := 0;
      while index < |t.nodes|
        invariant 0 <= index <= |t.nodes|
        invariant forall i :: 0 <= i < index ==> Entered(t, registrations, byNode, indexByNode, i)
        invariant endpoints == EndpointsUpTo(t, registrations, known, index)
      {
        var node := t.nodes[index];
        var registration := registrations[index + 1];
        EnteredNext(t, registrations, byNode, indexByNode, index,
                    byNode[node := registration], indexByNode[node := index]);
        byNode := byNode[node := registration];
        indexByNode := indexByNode[node := index];
        endpoints := endpoints[node := registration.controlURL];
        index := index + 1;
      }
      forall id | id in t.nodes
        ensures id in byNode && id in indexByNode
        ensures indexByNode[id] == IndexOf(t.nodes, id) && byNode[id] == registrations[IndexOf(t.nodes, id) + 1]
      {
        assert Entered(t, registrations, byNode, indexByNode, IndexOf(t.nodes, id));
      }
    }

    static ghost predicate Entered(t: Topology, registrations: Registrations, byNode: map<NodeId, Registration>,
                                   indexByNode: map<NodeId, nat>, i: int)
      requires AllSlots(|t.nodes|, registrations)
    {
      0 <= i < |t.nodes| ==>
        && t.nodes[i] in byNode && t.nodes[i] in indexByNode
        && indexByNode[t.nodes[i]] == i && byNode[t.nodes[i]] == registrations[i + 1]
    }

    static lemma EnteredNext(t: Topology, registrations: Registrations, byNode: map<NodeId, Registration>,
                             indexByNode: map<NodeId, nat>, index: nat,
                             byNode': map<NodeId, Registration>, indexByNode': map<NodeId, nat>)
      requires t.Valid() && AllSlots(|t.nodes|, registrations) && index < |t.nodes|
      requires forall i :: 0 <= i < index ==> Entered(t, registrations, byNode, indexByNode, i)
      requires byNode' == byNode[t.nodes[index] := registrations[index + 1]]
      requires indexByNode' == indexByNode[t.nodes[index] := index]
      ensures forall i :: 0 <= i < index + 1 ==> Entered(t, registrations, byNode', indexByNode', i)
    {
      forall i | 0 <= i < index + 1 ensures Entered(t, registrations, byNode', indexByNode', i) {
        assert i < index ==> Entered(t, registrations, byNode, indexByNode, i);
        assert t.DifferentNodes(i, index);
      }
    }

    static lemma ListedIsConfig(t: Topology, registrations: Registrations, neighbors: map<NodeId, seq<Neighbor>>,
                                i: nat)
      requires ListedUpTo(t, registrations, neighbors, |t.edges|) && i < |t.nodes|
      ensures NodeConfig(t.nodes[i], i, SortByIndex(Listed(neighbors, t.nodes[i]))) == ConfigOf(t, registrations, i)
    {
      assert t.nodes[i] in t.nodes;
    }

    static method AddConfigs(t: Topology, ghost registrations: Registrations, neighbors: map<NodeId, seq<Neighbor>>,
                             runtime: map<int, NodeConfig>)
      returns (configs: map<int, NodeConfig>)
      requires ListedUpTo(t, registrations, neighbors, |t.edges|)
      ensures configs == RuntimeUpTo(t, registrations, runtime, |t.nodes|)
    {
      configs := runtime;
      var index := 0;
      while index < |t.nodes|
        invariant 0 <= index <= |t.nodes|
        invariant configs == RuntimeUpTo(t, registrations, runtime, index)
      {
        var node := t.nodes[index];
        ListedIsConfig(t, registrations, neighbors, index);
        configs := configs[index + 1 := NodeConfig(node, index, SortByIndex(Listed(neighbors, node)))];
        index := index + 1;
      }
    }

    /** All that is built from the registrations, as values. */
    static method BuildAll(t: Topology, registrations: Registrations, endpoints: map<NodeId, string>,
                           runtime: map<int, NodeConfig>)
      returns (endpoints': map<NodeId, string>, runtime': map<int, NodeConfig>)
      requires Buildable(t, registrations)
      ensures endpoints' == EndpointsUpTo(t, registrations, endpoints, |t.nodes|)
      ensures runtime' == RuntimeUpTo(t, registrations, runtime, |t.nodes|)
    {
      var byNode, indexByNode;
      byNode, indexByNode, endpoints' := BuildDirectory(t, registrations, endpoints);
      var neighbors := BuildNeighbors(t, registrations, byNode, indexByNode);
      runtime' := AddConfigs(t, registrations, neighbors, runtime);
    }

    method BuildRuntimeConfigs() returns (failed: Option<RunError>)
      requires Valid()
      modifies this`runtime, this`endpoints, this`phase
      ensures Valid()
      ensures failed == if AllSlots(|topology.nodes|, registrations) then None else Some(BuildTooEarly)
      ensures failed.Some? ==> Abstract() == old(Abstract())
      ensures failed.None? ==> Abstract() == Built(topology, old(Abstract()))
    {
      CountMeansFull(|topology.nodes|, registrations);
      if |registrations| != |topology.nodes| {
        return Some(BuildTooEarly);
      }
      endpoints, runtime := BuildAll(topology, registrations, endpoints, runtime);
      phase := ConfigReady;
      return None;
    }

    /** The receive from the `changed` channel. */
    method TakeToken()
      requires token
      modifies this`token
      ensures Abstract() == old(Abstract()).(token := false)
    {
      token := false;
    }

    method SetPhase(next: Phase)
      modifies this`phase
      ensures Abstract() == old(Abstract()).(phase := next)
    {
      phase := next;
    }

    method Fail(reason: RunError)
      modifies this`phase, this`error
      ensures Abstract() == old(Abstract()).(phase := Failed, error := Some(reason))
    {
      phase := Failed;
      error := Some(reason);
    }
  }
}
