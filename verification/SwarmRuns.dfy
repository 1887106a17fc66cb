/** Runs of the coordinator: requests at any time, and the waiting goroutine. */
module SwarmRuns {
  import opened RuntimeConfigs
  import opened SwarmCoordinator
  import opened Wrappers
  import Sequences

  /** Where the goroutine is; Parked remembers the count it read before it went to wait. */
  datatype Control = Checking | Parked(observed: nat) | Building | Announcing | Executing | Stopped

  datatype System = System(view: View, control: Control)

  datatype Step =
    | Register(request: Registration, peerDecodes: bool, addressParses: bool)
    | Check
    | Take
    | StartupTimeout
    | Build
    | Announce
    | Complete
    | ExperimentFails

  ghost predicate Init(s: System) {
    s == System(View(map[], map[], map[], WaitingForPeers, None, false), Checking)
  }

  ghost predicate Enabled(s: System, step: Step) {
    match step
    case Register(_, _, _) => true
    case Check => s.control.Checking?
    case Take => s.control.Parked? && s.view.token
    case StartupTimeout => s.control.Parked?
    case Build => s.control.Building?
    case Announce => s.control.Announcing?
    case Complete => s.control.Executing?
    case ExperimentFails => s.control.Executing?
  }

  ghost function Failing(v: View, error: RunError): System {
    System(v.(phase := Failed, error := Some(error)), Stopped)
  }

  ghost function Apply(t: Topology, s: System, step: Step): System
    requires t.Valid() && Enabled(s, step)
  {
    var n := |t.nodes|;
    match step
    case Register(request, peerDecodes, addressParses) =>
      s.(view := Registered(n, s.view, request, peerDecodes, addressParses).0)
    case Check =>
      if |s.view.registrations| == n then s.(control := Building)
      else s.(control := Parked(|s.view.registrations|))
    case Take => System(s.view.(token := false), Checking)
    case StartupTimeout => Failing(s.view, OnlyRegistered(s.control.observed, n))
    case Build =>
      if AllSlots(n, s.view.registrations) then System(Built(t, s.view), Announcing) else Failing(s.view, BuildTooEarly)
    case Announce => System(s.view.(phase := WaitingForReadiness), Executing)
    case Complete => System(s.view.(phase := Completed), Stopped)
    case ExperimentFails => Failing(s.view, ExperimentFailed)
  }

  /**
   * The moves on the coordinator itself: whatever its methods do to its fields is the step of the
   * system that the theorems are about.
   */
  method Perform(c: Coordinator, control: Control, step: Step) returns (control': Control)
    requires c.Valid() && Enabled(System(c.Abstract(), control), step)
    modifies c
    ensures c.Valid() && System(c.Abstract(), control') == Apply(c.topology, System(old(c.Abstract()), control), step)
  {
    var n := |c.topology.nodes|;
    match step {
      case Register(request, peerDecodes, addressParses) =>
        var refused := c.Register(request, peerDecodes, addressParses);
        control' := control;
      case Check =>
        control' := if |c.registrations| == n then Building else Parked(|c.registrations|);
      case Take =>
        c.TakeToken();
        control' := Checking;
      case StartupTimeout =>
        c.Fail(OnlyRegistered(control.observed, n));
        control' := Stopped;
      case Build =>
        var failed := c.BuildRuntimeConfigs();
        if failed.Some? {
          c.Fail(failed.value);
        }
        control' := if failed.Some? then Stopped else Announcing;
      case Announce =>
        c.SetPhase(WaitingForReadiness);
        control' := Executing;
      case Complete =>
        c.SetPhase(Completed);
        control' := Stopped;
      case ExperimentFails =>
        c.Fail(ExperimentFailed);
        control' := Stopped;
    }
  }

  ghost predicate Run(t: Topology, s: System, steps: seq<Step>, s': System)
    requires t.Valid()
    decreases |steps|
  {
    if steps == [] then s == s'
    else Enabled(s, steps[0]) && Run(t, Apply(t, s, steps[0]), steps[1..], s')
  }

  ghost predicate Reachable(t: Topology, s: System)
    requires t.Valid()
  {
    exists s0, steps :: Init(s0) && Run(t, s0, steps, s)
  }

  /** The state string and the goroutine's position go together. */
  ghost predicate InPhase(s: System) {
    match s.control
    case Checking => s.view.phase.WaitingForPeers?
    case Parked(_) => s.view.phase.WaitingForPeers?
    case Building => s.view.phase.WaitingForPeers?
    case Announcing => s.view.phase.ConfigReady?
    case Executing => s.view.phase.WaitingForReadiness?
    case Stopped => s.view.phase.Completed? || s.view.phase.Failed?
  }

  /** A parked waiter has a token whenever the count moved on after it looked. */
  ghost predicate Wakeable(n: nat, s: System) {
    s.control.Parked? ==>
      && s.control.observed <= |s.view.registrations| && s.control.observed != n
      && (|s.view.registrations| != s.control.observed ==> s.view.token)
  }

  /** Configurations and endpoints are there for no slot, or for all and from the registrations as they stand. */
  ghost predicate Configured(t: Topology, v: View) {
    || (v.runtime == map[] && v.endpoints == map[]
        && !v.phase.ConfigReady? && !v.phase.WaitingForReadiness? && !v.phase.Completed?)
    || (!v.phase.WaitingForPeers? && Buildable(t, v.registrations)
        && v.runtime == RuntimeUpTo(t, v.registrations, map[], |t.nodes|)
        && v.endpoints == EndpointsUpTo(t, v.registrations, map[], |t.nodes|))
  }

  ghost predicate Inv(t: Topology, s: System) {
    && t.Valid()
    && SlotsInRange(|t.nodes|, s.view.registrations)
    && InPhase(s)
    && Wakeable(|t.nodes|, s)
    && (s.control.Building? ==> AllSlots(|t.nodes|, s.view.registrations))
    && Configured(t, s.view)
  }

  /** A registration never lowers the count, and it leaves a token when it changes anything. */
  lemma RegisterGrows(n: nat, v: View, request: Registration, peerDecodes: bool, addressParses: bool)
    requires SlotsInRange(n, v.registrations)
    ensures
      var v' := Registered(n, v, request, peerDecodes, addressParses).0;
      && SlotsInRange(n, v'.registrations)
      && |v.registrations| <= |v'.registrations|
      && (v'.registrations != v.registrations ==> v'.token && v.phase.WaitingForPeers?)
      && (v.token ==> v'.token)
      && (AllSlots(n, v.registrations) ==> AllSlots(n, v'.registrations))
      && v' == v.(registrations := v'.registrations, token := v'.token)
  {
    var v' := Registered(n, v, request, peerDecodes, addressParses).0;
    assert v.registrations.Keys <= v'.registrations.Keys;
    Sequences.SubsetSize(v.registrations.Keys, v'.registrations.Keys);
  }

  lemma StepKeepsInv(t: Topology, s: System, step: Step)
    requires Inv(t, s) && Enabled(s, step)
    ensures Inv(t, Apply(t, s, step))
  {
    match step
    case Register(request, peerDecodes, addressParses) =>
      RegisterGrows(|t.nodes|, s.view, request, peerDecodes, addressParses);
    case Check =>
      CountMeansFull(|t.nodes|, s.view.registrations);
    case _ =>
  }

  lemma {:induction false} RunKeepsInv(t: Topology, s: System, steps: seq<Step>, s': System)
    requires Inv(t, s) && Run(t, s, steps, s')
    ensures Inv(t, s')
    decreases |steps|
  {
    if steps != [] {
      StepKeepsInv(t, s, steps[0]);
      RunKeepsInv(t, Apply(t, s, steps[0]), steps[1..], s');
    }
  }

  lemma ReachableInv(t: Topology, s: System)
    requires t.Valid() && Reachable(t, s)
    ensures Inv(t, s)
  {
    var s0, steps :| Init(s0) && Run(t, s0, steps, s);
    RunKeepsInv(t, s0, steps, s);
  }

  /** The peer is told that its request for the slot is registered while the coordinator still waits. */
  ghost predicate Accepts(n: nat, s: System, step: Step, slot: int) {
    && step.Register? && step.request.slot == slot && s.view.phase.WaitingForPeers?
    && Registered(n, s.view, step.request, step.peerDecodes, step.addressParses).1.None?
  }

  /** The last request for the slot that a run accepts while the coordinator waits, or else the one before the run. */
  ghost function LastAccepted(t: Topology, s: System, steps: seq<Step>, s': System, slot: int,
                              before: Option<Registration>)
    : Option<Registration>
    requires t.Valid() && Run(t, s, steps, s')
    decreases |steps|
  {
    if steps == [] then before
    else
      var latest := if Accepts(|t.nodes|, s, steps[0], slot) then Some(steps[0].request) else before;
      LastAccepted(t, Apply(t, s, steps[0]), steps[1..], s', slot, latest)
  }

  /** Every slot holds the last request accepted for it, whatever else the run does. */
  lemma {:induction false} HoldsLastAccepted(t: Topology, s: System, steps: seq<Step>, s': System, slot: int)
    requires t.Valid() && Run(t, s, steps, s')
    ensures Held(s'.view.registrations, slot)
         == LastAccepted(t, s, steps, s', slot, Held(s.view.registrations, slot))
    decreases |steps|
  {
    if steps != [] {
      HoldsLastAccepted(t, Apply(t, s, steps[0]), steps[1..], s', slot);
    }
  }

  ghost predicate AcceptedForAll(t: Topology, s: System, steps: seq<Step>, s': System)
    requires t.Valid() && Run(t, s, steps, s')
  {
    forall slot :: 1 <= slot <= |t.nodes| ==> LastAccepted(t, s, steps, s', slot, None).Some?
  }

  /**
   * From the start on, every slot is filled exactly when a request was accepted for each of them
   * while the coordinator waited, and then each holds the last one accepted.
   */
  lemma AllAcceptedMeansFull(t: Topology, s: System, steps: seq<Step>, s': System)
    requires t.Valid() && Init(s) && Run(t, s, steps, s')
    ensures AllSlots(|t.nodes|, s'.view.registrations) <==> AcceptedForAll(t, s, steps, s')
    ensures forall slot :: slot in s'.view.registrations ==>
      Some(s'.view.registrations[slot]) == LastAccepted(t, s, steps, s', slot, None)
  {
    forall slot: int
      ensures Held(s'.view.registrations, slot) == LastAccepted(t, s, steps, s', slot, None)
    {
      HoldsLastAccepted(t, s, steps, s', slot);
    }
    forall slot | slot in s'.view.registrations
      ensures Some(s'.view.registrations[slot]) == LastAccepted(t, s, steps, s', slot, None)
    {
      assert Held(s'.view.registrations, slot).Some?;
    }
    if AcceptedForAll(t, s, steps, s') {
      forall slot | 1 <= slot <= |t.nodes| ensures slot in s'.view.registrations {
        assert Held(s'.view.registrations, slot).Some?;
      }
    }
    if AllSlots(|t.nodes|, s'.view.registrations) {
      forall slot | 1 <= slot <= |t.nodes| ensures LastAccepted(t, s, steps, s', slot, None).Some? {
        assert slot in s'.view.registrations;
      }
    }
  }

  /** How far the goroutine is from the built configurations once every slot is filled. */
  ghost function Distance(c: Control): nat {
    match c
    case Parked(_) => 3
    case Checking => 2
    case Building => 1
    case _ => 0
  }

  /** The next step of the goroutine on its way out of the waiting phase. */
  ghost function NextOwn(c: Control): Step {
    match c
    case Parked(_) => Take
    case Checking => Check
    case _ => Build
  }

  /**
   * No wake-up is lost: once every slot is registered, a goroutine that still waits for peers has
   * its next step enabled, and that step brings it closer to the built configurations.
   */
  lemma WaiterCanMove(t: Topology, s: System)
    requires t.Valid() && Reachable(t, s) && s.view.phase.WaitingForPeers? && AllSlots(|t.nodes|, s.view.registrations)
    ensures Enabled(s, NextOwn(s.control))
    ensures Distance(Apply(t, s, NextOwn(s.control)).control) == Distance(s.control) - 1
  {
    ReachableInv(t, s);
    CountMeansFull(|t.nodes|, s.view.registrations);
  }

  ghost predicate Own(step: Step) {
    !step.Register?
  }

  ghost function OwnSteps(steps: seq<Step>): nat {
    if steps == [] then 0 else (if Own(steps[0]) then 1 else 0) + OwnSteps(steps[1..])
  }

  ghost predicate NoTimeout(steps: seq<Step>) {
    forall i :: 0 <= i < |steps| ==> !steps[i].StartupTimeout?
  }

  /**
   * Whatever registrations come in between, three steps of the goroutine without a timeout take it
   * from all slots filled to configurations built.
   */
  lemma {:induction false} FullMeansBuilt(t: Topology, s: System, steps: seq<Step>, s': System)
    requires Inv(t, s) && Run(t, s, steps, s') && NoTimeout(steps)
    requires AllSlots(|t.nodes|, s.view.registrations) && OwnSteps(steps) >= Distance(s.control)
    ensures !s'.view.phase.WaitingForPeers?
    ensures s.view.phase.WaitingForPeers? ==>
      && Buildable(t, s'.view.registrations)
      && s'.view.runtime == RuntimeUpTo(t, s'.view.registrations, map[], |t.nodes|)
      && s'.view.endpoints == EndpointsUpTo(t, s'.view.registrations, map[], |t.nodes|)
    decreases |steps|
  {
    if !s.view.phase.WaitingForPeers? {
      FrozenAfterwards(t, s, steps, s');
    } else if steps != [] {
      var next := Apply(t, s, steps[0]);
      StepKeepsInv(t, s, steps[0]);
      CountMeansFull(|t.nodes|, s.view.registrations);
      if steps[0].Register? {
        RegisterGrows(|t.nodes|, s.view, steps[0].request, steps[0].peerDecodes, steps[0].addressParses);
      }
      assert !steps[0].StartupTimeout?;
      assert forall i :: 0 <= i < |steps| - 1 ==> steps[1..][i] == steps[i + 1];
      if next.view.phase.WaitingForPeers? {
        FullMeansBuilt(t, next, steps[1..], s');
      } else {
        FrozenAfterwards(t, next, steps[1..], s');
      }
    }
  }

  /** After the waiting phase registrations and configurations never change, and the phase never returns. */
  lemma {:induction false} FrozenAfterwards(t: Topology, s: System, steps: seq<Step>, s': System)
    requires Inv(t, s) && Run(t, s, steps, s') && !s.view.phase.WaitingForPeers?
    ensures !s'.view.phase.WaitingForPeers?
    ensures s'.view.registrations == s.view.registrations && s'.view.runtime == s.view.runtime
    ensures s'.view.endpoints == s.view.endpoints
    decreases |steps|
  {
    if steps != [] {
      StepKeepsInv(t, s, steps[0]);
      FrozenAfterwards(t, Apply(t, s, steps[0]), steps[1..], s');
    }
  }

  /**
   * From the freeze on the answer to a request is settled: it is accepted, at any later time and
   * without effect, exactly when its slot was frozen for the same peer.
   */
  lemma LateAnswers(t: Topology, s: System, steps: seq<Step>, s': System, request: Registration)
    requires Inv(t, s) && Run(t, s, steps, s') && !s.view.phase.WaitingForPeers?
    requires WellFormed(|t.nodes|, request, true, true)
    ensures
      var (view, refused) := Registered(|t.nodes|, s'.view, request, true, true);
      && view == s'.view
      && (refused.None? <==>
           request.slot in s.view.registrations && s.view.registrations[request.slot].peerID == request.peerID)
  {
    FrozenAfterwards(t, s, steps, s');
  }

  lemma {:induction false} RuntimeAt(t: Topology, registrations: Registrations, k: nat, slot: int)
    requires Buildable(t, registrations) && k <= |t.nodes|
    ensures slot in RuntimeUpTo(t, registrations, map[], k) <==> 1 <= slot <= k
    ensures 1 <= slot <= k ==> RuntimeUpTo(t, registrations, map[], k)[slot] == ConfigOf(t, registrations, slot - 1)
  {
    if k > 0 {
      RuntimeAt(t, registrations, k - 1, slot);
    }
  }

  lemma {:induction false} EndpointsAt(t: Topology, registrations: Registrations, k: nat, i: nat)
    requires Buildable(t, registrations) && i < k <= |t.nodes|
    ensures
      var endpoints := EndpointsUpTo(t, registrations, map[], k);
      t.nodes[i] in endpoints && endpoints[t.nodes[i]] == registrations[i + 1].controlURL
  {
    if i < k - 1 {
      EndpointsAt(t, registrations, k - 1, i);
      assert t.DifferentNodes(i, k - 1);
    }
  }

  lemma {:induction false} EndpointsOnlyNodes(t: Topology, registrations: Registrations, k: nat, id: NodeId)
    requires Buildable(t, registrations) && k <= |t.nodes|
    ensures id in EndpointsUpTo(t, registrations, map[], k) ==> id in t.nodes
  {
    if k > 0 {
      EndpointsOnlyNodes(t, registrations, k - 1, id);
    }
  }

  /** From the built configurations on. */
  ghost predicate PastBuilding(v: View) {
    v.phase.ConfigReady? || v.phase.WaitingForReadiness? || v.phase.Completed? || v.runtime != map[]
  }

  /**
   * The endpoints handed to the experiment are those of the nodes and of nobody else, each the control
   * URL of the frozen registration.
   */
  lemma FrozenEndpoints(t: Topology, s: System)
    requires t.Valid() && Reachable(t, s) && PastBuilding(s.view)
    ensures Buildable(t, s.view.registrations)
    ensures forall id :: id in s.view.endpoints <==> id in t.nodes
    ensures forall i :: 0 <= i < |t.nodes| ==>
      t.nodes[i] in s.view.endpoints && s.view.endpoints[t.nodes[i]] == s.view.registrations[i + 1].controlURL
  {
    ReachableInv(t, s);
    forall i | 0 <= i < |t.nodes|
      ensures t.nodes[i] in s.view.endpoints
      ensures s.view.endpoints[t.nodes[i]] == s.view.registrations[i + 1].controlURL
    {
      EndpointsAt(t, s.view.registrations, |t.nodes|, i);
    }
    forall id ensures id in s.view.endpoints ==> id in t.nodes {
      EndpointsOnlyNodes(t, s.view.registrations, |t.nodes|, id);
    }
  }

  /** A peer that is served a configuration gets the one of its slot, and so does every other slot. */
  lemma ServedConfigs(t: Topology, s: System, slot: int)
    requires t.Valid() && Reachable(t, s) && slot in s.view.runtime
    ensures !s.view.phase.WaitingForPeers? && Buildable(t, s.view.registrations)
    ensures forall other :: other in s.view.runtime <==> 1 <= other <= |t.nodes|
    ensures s.view.runtime[slot] == ConfigOf(t, s.view.registrations, slot - 1)
    ensures s.view.runtime[slot].nodeID == t.nodes[slot - 1] && s.view.runtime[slot].index == slot - 1
  {
    ReachableInv(t, s);
    forall other ensures other in s.view.runtime <==> 1 <= other <= |t.nodes| {
      RuntimeAt(t, s.view.registrations, |t.nodes|, other);
    }
    RuntimeAt(t, s.view.registrations, |t.nodes|, slot);
  }

  /**
   * Once every peer has been told that it is registered, three steps of the goroutine without a
   * timeout serve every slot the configuration made from the last requests accepted for the slots.
   */
  lemma AcceptedPeersAreServed(t: Topology, s0: System, steps: seq<Step>, s: System, more: seq<Step>, s': System)
    requires t.Valid() && Init(s0) && Run(t, s0, steps, s) && AcceptedForAll(t, s0, steps, s)
    requires s.view.phase.WaitingForPeers?
    requires Run(t, s, more, s') && NoTimeout(more) && OwnSteps(more) >= 3
    ensures Buildable(t, s'.view.registrations)
    ensures forall slot :: 1 <= slot <= |t.nodes| ==>
      && slot in s'.view.runtime && s'.view.runtime[slot] == ConfigOf(t, s'.view.registrations, slot - 1)
      && Some(s'.view.registrations[slot])
         == LastAccepted(t, s, more, s', slot, LastAccepted(t, s0, steps, s, slot, None))
  {
    RunKeepsInv(t, s0, steps, s);
    AllAcceptedMeansFull(t, s0, steps, s);
    FullMeansBuilt(t, s, more, s');
    forall slot | 1 <= slot <= |t.nodes|
      ensures slot in s'.view.runtime && s'.view.runtime[slot] == ConfigOf(t, s'.view.registrations, slot - 1)
      ensures Some(s'.view.registrations[slot])
           == LastAccepted(t, s, more, s', slot, LastAccepted(t, s0, steps, s, slot, None))
    {
      RuntimeAt(t, s'.view.registrations, |t.nodes|, slot);
      HoldsLastAccepted(t, s0, steps, s, slot);
      HoldsLastAccepted(t, s, more, s', slot);
      assert slot in s'.view.registrations;
    }
  }
}
