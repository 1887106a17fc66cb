# peerkit: a verified model

peerkit runs message-dissemination experiments over real libp2p peers. A controller expands a topology
generator into nodes and edges, the peers of a Swarm deployment register and fetch their configuration, each
peer floods messages over its edges with one of four protocols, and every peer writes a stream of events that is
aggregated into a summary at the end. This project models that path in Dafny and proves what each part promises.

- **Flooding** (`Wire`, `Forwarding`, `HopWave`, `EdgeSender`, `Flooding*`): all peers of an experiment as one step
  system on any simple graph, with the steps as fine as the lock regions of the code. A received message is
  marked as seen, then announced neighbour by neighbour, then offered to the bounded process queue; a worker takes
  an item, later reads the suppression plan, then decides, re-checks and enqueues target by target; the sender of
  an edge dequeues, checks, draws a loss, checks again, writes and then records the write. Base, duplicate-aware and
  IDONTWANT flooding and HopWave share the worker loop. `FloodingPlans` and `FloodingNotices` tell from the logs what
  suppression does, `FloodingAmple` and `FloodingOrder` what the queues do, and `EdgeWake` adds the wake token
  between enqueuers and the sender.
- **Topologies** (`EdgeLists`, `WattsStrogatz`, `Growth`, `BarabasiAlbert`, `PairSamples`, `Opportunistic*`, `Rings`,
  `DoubleRing`, `Drs*`, `Components`, `Normalize`, `FinishTopology`): the generators as methods over the edge list,
  the adjacency maps and the degree array they keep side by side. A random draw is any value in its range and a
  shuffle any permutation, so every statement holds for every seed. Floating-point numbers are reals.
- **Bookkeeping** (`RuntimeConfigs`, `Swarm*`, `Metrics*`, `Aggregate`): the coordinator's registration and freeze, the
  metrics writer's accept and close protocol, and the event aggregation. A class carries the source's fields and
  methods; each method is proved against a function on an abstract value, and a step system over that value adds
  the goroutines.
- **Deployment** ties the three together: from a generated edge list through the coordinator's configurations to a
  flood that reaches every node.

The shared notions are in `Sequences`, `Sums`, `Arithmetic`, `EdgePaths`, `Graph`, `Random` and `Wrappers`.
`dafny verify dfyconfig.toml` checks the whole project.

Two places where the code and its comments or expectations differ, and the model follows the code:

- HopWave compares the received cycle field with `uint32(I-1)`; the cycle has length I exactly for I up to 2^32
  (`HopWave.PeriodIsI`, `HopWave.CrestsEveryI`). With I = 2^32 + 1, which validation accepts, every node relays to
  all its neighbours (`HopWave.CollapsedCycle`).
- The recorded time of the last unique reception is overwritten by the creation event, so it is the latest of both
  only under the condition of `Aggregate.LastUniqueIsLatest`; `Aggregate.EarlyReceptionIsLost` is an input where it
  is not: files are read in name order, and a peer named before the origin received the message.

## Model

| member | source | states |
|---|---|---|
| FloodingCoverage.Coverage | internal/p2p/peer.go:359-475 | In every reachable state where the message is at rest and none of its data copies was dropped, the peers that have seen it are exactly those connected to its origin, for base, duplicate-aware and IDONTWANT flooding (and HopWave without real troughs), with any loss of control frames |
| FloodingCoverage.NeverBeyondComponent | internal/p2p/peer.go:359-475 | In every reachable state and whatever was dropped, only peers connected to the origin have seen the message |
| FloodingCoverage.SuppressionSound | internal/p2p/forwarding.go:29-96 | In every reachable state a recorded duplicate sender or unwilling peer, the author of an IDONTWANT notice that is queued, in the sender's hands or in transit, and the target of every recorded suppression all have the message |
| FloodingCoverage.OneFatePerNeighbor | internal/p2p/peer.go:434-472 | Once a peer has finished its forwarding loop, each neighbour except the supplier got exactly one fate: sent, dropped, suppressed or still waiting; the supplier none |
| FloodingCoverage.FrameConservation | internal/p2p/peer.go:486-654 | Summed over the neighbours, sent + edge-dropped + suppressed + still queued or in hand equals the degree, less one for a received message |
| FloodingCoverage.AtMostOncePerEdge | internal/p2p/peer.go:611-632 | Under every protocol and any loss, a directed edge carries a message at most once, with at most one record of it being sent, dropped or suppressed; receptions never exceed the frames written, whose sent record may still be to come |
| FloodingTraffic.ExactTraffic | internal/p2p/peer.go:434-472 | At rest without drops, in a component of N peers and E edges: sent plus suppressed is 2E-(N-1), all receptions but N-1 are duplicates; without suppression exactly 2E-(N-1) transmissions and 2(E-N+1) duplicates |
| FloodingTraffic.SupplierCount | internal/p2p/peer.go:359-374 | The accepted first deliveries number the reached peers minus one |
| FloodingTree.FirstDeliveryTree | internal/p2p/peer.go:309-374 | Whoever has seen a message is joined to the origin by a unique chain of suppliers, a path of the topology as long as its depth, which is below the number of reached peers |
| FloodingTree.FrameHops | internal/p2p/peer.go:450-472 | Every data frame on a link carries its sender's depth plus one as Hop and, under HopWave, Hop-1 modulo the cycle length as cycle field, which is (Hop-1) mod I for I up to 2^32 |
| FloodingTree.ItemHops | internal/p2p/peer.go:309-331 | What a peer queues or processes carries the peer's depth as Hop, below the number of reached peers |
| FloodingTree.DepthBound | internal/p2p/peer.go:359-374 | The depth of a peer is below the number of peers that have the message |
| FloodingTermination.Termination | internal/p2p/peer.go:359-475 | A run with k injections has at most k(1 + 5n + 18 * sum of degrees) steps, whatever the interleaving, the protocol and the losses |
| FloodingTermination.StepDecreases | internal/p2p/peer.go:580-632 | Every step but an injection lowers the measure that weighs unseen pairs above queued items above frames |
| FloodingProgress.StandstillIsQuiescent | internal/p2p/peer.go:411-475 | A reachable state in which only injections are possible holds no trace of any message in a queue, worker or transport: nothing gets stuck |
| FloodingProgress.Delivery | internal/p2p/peer.go:359-632 | A run that has come to a standstill without dropping the message has delivered it to exactly the origin's component |
| FloodingAmple.AmpleDelivery | internal/p2p/peer.go:359-654 | A run at a standstill, over links without loss and writes that do not fail, whose queues have room for as many messages as were injected, has delivered every message to exactly the component of its origin |
| FloodingAmple.NothingIsDropped | internal/p2p/peer.go:398-409 | In such a run no copy of a message is ever dropped, at a node or on an edge: a queue refuses only what it has no room for |
| FloodingAmple.QueuesAreBounded | internal/p2p/peer.go:398-539 | In every reachable state the process queue of a peer and both queues of an edge keep to their capacities |
| FloodingOrder.OldestMessageFirst | internal/p2p/peer.go:398-417 | Over whole runs the workers of a peer take the oldest messages of its queue |
| FloodingOrder.OldestFrameFirst | internal/p2p/peer.go:333-357 | Over whole runs the receiver of a link reads the frames in the order of their writing |
| FloodingArrivals.StepKeepsInv | internal/p2p/peer.go:359-632 | Each of the seventeen steps keeps the invariant: seen at the source implies seen at the neighbour, or on its way, or a recorded drop or suppression |
| Forwarding.Peer.RegisterLocalMessage | internal/p2p/forwarding.go:20-27 | Marks the message seen and makes its knowledge record |
| Forwarding.Peer.RegisterReceivedMessage | internal/p2p/forwarding.go:29-46 | First copy: seen, not a duplicate; a later copy is a duplicate, and under duplicate-aware flooding its sender is recorded as long as forwarding has not started, and never otherwise |
| Forwarding.Peer.RegisterIDontWant | internal/p2p/forwarding.go:48-57 | Adds the peer to those that do not want the message |
| Forwarding.Peer.BeginForwarding | internal/p2p/forwarding.go:59-82 | Marks forwarding as started and returns the suppression plan of the protocol, each neighbour in it with the reason that is recorded of it |
| Forwarding.Peer.ShouldSuppressQueued | internal/p2p/forwarding.go:84-96 | True exactly for a target known not to want the message under IDONTWANT flooding |
| Forwarding.PlanIsFixedOnceStarted | internal/p2p/forwarding.go:20-96 | After forwarding of a message started, no registration of any message and no further start changes what is known of it, except a notice, which takes effect for its author under IDONTWANT flooding |
| FloodingCoverage.PlanIsFixed | internal/p2p/forwarding.go:29-82 | Over whole runs: once a peer has started to forward a message its duplicate senders never change again, and unwilling peers are only added |
| FloodingPlans.DuplicatesAreRecorded | internal/p2p/forwarding.go:38-41 | In every reachable state under duplicate-aware flooding: a neighbour whose duplicate is in the log is a duplicate sender unless forwarding has started, and only such neighbours ever are |
| FloodingPlans.NoticesAreRecorded | internal/p2p/forwarding.go:48-57 | In every reachable state under IDONTWANT flooding the unwilling peers of a message are exactly those whose notice is in the log |
| FloodingPlans.PlanIsWhatWasLogged | internal/p2p/forwarding.go:59-82 | The plan handed to a worker leaves out exactly the neighbours of whom a duplicate, or a notice, had been logged by then |
| FloodingPlans.SuppressedForAReason | internal/p2p/forwarding.go:59-96 | In every reachable state a recorded suppression has its reason, a duplicate from the neighbour or a notice by it, in the log |
| FloodingPlans.PlanIsCarriedOut | internal/p2p/peer.go:434-472 | Over whole runs of duplicate-aware flooding: when a forwarding is over, a neighbour has exactly one recorded suppression and no copy if its duplicate was logged before the start, and otherwise no suppression and, the supplier apart, exactly one copy sent, dropped or waiting |
| FloodingNotices.NoticeConservation | internal/p2p/peer.go:359-396 | In every reachable state under IDONTWANT flooding a peer that has a message owes each neighbour but its supplier one notice, which is to be announced, waiting, sent or dropped; the sent ones are in transit or in the log of the neighbour |
| FloodingNotices.EveryNeighborIsTold | internal/p2p/peer.go:376-396 | At a standstill every neighbour of a peer with the message, its supplier apart, has logged the notice once and counts the peer as unwilling, unless the notice was dropped |
| FloodingNotices.NoticeKeepsCopiesBack | internal/p2p/peer.go:580-614 | Over whole runs: once a target is known to be unwilling and no copy for it has passed the check before the write, none ever will |
| FloodingNotices.UnwillingIsSpared | internal/p2p/peer.go:486-614 | A notice that is logged in time keeps every copy from being sent; after the forwarding the copy was suppressed or dropped |
| HopWave.RelayFollowsDepth | internal/p2p/hopwave.go:21-26 | At depth d of the delivery tree the relay is a crest exactly when the cycle length divides d, and the outgoing field is d modulo it |
| HopWave.PeriodIsI | internal/p2p/hopwave.go:21-26 | The cycle length is I if and only if I <= 2^32, and never longer |
| HopWave.CrestsEveryI | internal/p2p/hopwave.go:21-26 | The relays are crests at exactly the depths divisible by I, in every delivery tree, if and only if I <= 2^32 |
| HopWave.CollapsedCycle | internal/p2p/hopwave.go:21-26 | The failing input: with I = 2^32 + 1 every relay is a crest, whatever cycle field arrives |
| HopWave.TargetCount | internal/p2p/hopwave.go:31-48 | None of no neighbours or for a factor that is not positive, all from factor 1 on, and in between the nearest whole number to the exact share, halves up, but at least one |
| HopWaveSelection.SelectTargets | internal/p2p/hopwave.go:31-61 | The selected set is a subset of the eligible neighbours of the rounded size, and a function of the draws and the sorted neighbours |
| HopWaveSelection.ChosenShare | internal/p2p/hopwave.go:31-61 | The selection holds only eligible neighbours, exactly as many as the factor asks for, and all of them from factor 1 on |
| HopWaveSelection.ChoiceIgnoresOrder | internal/p2p/hopwave.go:28-52 | The same neighbours in another slice order lead to the same selection |
| HopWaveSelection.EveryShareComesOut | internal/p2p/hopwave.go:50-60 | Every subset of the eligible neighbours that has the asked size is the selection for some draws, so no neighbour is left out for good |
| EdgeSender.Sender.Enqueue | internal/p2p/peer.go:518-539 | Accepts exactly if the queue of the class has room, and then appends to that queue alone; a token is in the wake channel after every accepted item |
| EdgeSender.Sender.Dequeue | internal/p2p/peer.go:541-563 | Takes the oldest control item, else the oldest data item |
| EdgeWake.Perform | internal/p2p/peer.go:518-578 | What the sender's methods do to its queues and token is the step of the system that the theorems are about |
| EdgeWake.StrictPriorityQueues | internal/p2p/peer.go:518-578 | With any number of enqueuers: capacities hold, each class leaves in order with nothing lost, data only while no control waits, and the sender never parks on a non-empty queue unless a signal is still owed |
| EdgeWake.Drains | internal/p2p/peer.go:565-578 | Without further offers the sender rests after a bounded number of steps, and rests only when everything accepted was taken |
| EdgeLists.Builder.AddSimple | internal/config/domain.go:1065-1072 | A loop or an existing pair changes nothing; otherwise the edge is added to list and maps, which keep agreeing |
| EdgeLists.Builder.AddCounted | internal/config/domain.go:1031-1063 | As above with both degrees raised; degrees stay the sizes of the maps and sum to twice the edges |
| EdgeLists.Builder.RemoveSimple | internal/config/domain.go:1074-1085 | Removes exactly the plain edge of the pair from list and maps, which keep agreeing; without such an edge the list stays |
| EdgeLists.SwapDeleteMembers | internal/config/domain.go:1076-1082 | Moving the last edge into the gap removes exactly the one edge |
| EdgeLists.JoinKeepsConsistent | internal/config/domain.go:1031-1072 | A new pair keeps the list simple and in agreement with the maps |
| EdgeLists.JoinKeepsDegrees | internal/config/domain.go:1031-1040 | A new pair keeps every degree the size of its map and the degrees summing to twice the edges |
| EdgeLists.RemovalKeepsConsistent | internal/config/domain.go:1074-1085 | A removed pair keeps the list simple and in agreement with the maps |
| WattsStrogatz.GenerateWS | internal/config/domain.go:833-875 | For every draw: a simple graph with exactly n*k/2 edges, every degree at least k/2, slots (i, d) owning the edges one to one; on record as the lattice and one round per slot in loop order, in which the slot moves exactly when its draw is below beta and a target is free, to one free at that moment; the lattice itself for beta 0 |
| WattsStrogatz.RewireSlot | internal/config/domain.go:847-873 | One round moves only its own slot, to a target free at that moment, never for beta 0 and always for beta 1 when one is free |
| WattsStrogatz.MoveSlot | internal/config/domain.go:849-871 | The test that the slot's edge still exists never fails; the slot moves exactly when a target is free |
| WattsStrogatz.DegreeAtLeastHalf | internal/config/domain.go:833-875 | A node has at least as many neighbours as slots |
| WattsStrogatz.LatticePairsDistinct | internal/config/domain.go:840-845 | With k below n the lattice edges of different slots differ and none is a loop |
| BarabasiAlbert.WeightedDegreeChoice | internal/config/domain.go:529-555 | A drawn node is unexcluded and holds the draw in its stretch of length degree; the endless loop is entered exactly for total weight 0 and the panic is never reached |
| BarabasiAlbert.StretchUnique | internal/config/domain.go:545-553 | A draw belongs to one node, so nodes are chosen in proportion to their degree |
| BarabasiAlbert.SelectTargets | internal/config/domain.go:298-302 | m distinct existing nodes, each drawn in proportion to the degrees of those not yet selected |
| BarabasiAlbert.GenerateBA | internal/config/domain.go:280-308 | For every seed: simple, connected, m(m+1)/2+(n-m-1)m edges, least degree m, degrees equal to map sizes and summing to twice the edges; grown from a clique by arrivals that each draw m earlier nodes by the degrees of that moment |
| BarabasiAlbert.GrownByUnique | internal/config/domain.go:293-306 | The draws determine every selection and every intermediate graph, so the visiting order of the selected map does not matter |
| Growth.Attach | internal/config/domain.go:303-305 | Whatever the map order, the node gains exactly the selected targets and the targets gain the node, one edge each |
| Growth.GrownDegree | internal/config/domain.go:280-308 | Growth by m earlier neighbours gives every node degree at least m |
| Growth.GrownLinked | internal/config/domain.go:280-308 | Growth by m >= 1 earlier neighbours links every node to the first |
| OpportunisticChoice.SelectOpportunisticInitialClique | internal/config/domain.go:433-475 | Distinct nodes, each the best choice after the earlier ones: least processing baseline plus mean link delay, ties to the lower index |
| OpportunisticChoice.GreedyUnique | internal/config/domain.go:433-475 | Baselines and link delays determine the clique |
| OpportunisticChoice.WeightedOpportunityChoice | internal/config/domain.go:477-527 | A fresh candidate, drawn in proportion to the weights, each of which times the cost of 1 plus processing baseline plus edge baseline is the degree; over the reals neither the fallback nor the panic is needed |
| OpportunisticChoice.PickedUnique | internal/config/domain.go:507-517 | A draw belongs to one candidate |
| OpportunisticChoice.TwoStretches | internal/config/domain.go:488-517 | A candidate is picked by exactly the draws of one stretch of the unit interval, and the stretches of two are in proportion to degree over cost: with equal degrees the cheaper has the longer one, with equal costs they are in the ratio of the degrees |
| OpportunisticChoice.EveryDrawPicks | internal/config/domain.go:507-526 | The stretches leave no draw of the unit interval out |
| OpportunisticChoice.PairDelays.PairDelay | internal/config/domain.go:357-369 | One sampled delay per unordered pair, kept for good |
| OpportunisticGrowth.GenerateBAOpportunistic | internal/config/domain.go:328-431 | Greedy clique, then arrivals in index order by weighted draws; simple, connected, the edge count and least degree of plain growth; every edge carries the one delay of its pair |
| OpportunisticGrowth.ArrivalPrefersCheap | internal/config/domain.go:401-417 | At every arrival the stretches of two targets not yet selected are in proportion to their number of neighbours over 1 plus processing baseline plus delay of the pair |
| OpportunisticGrowth.CliqueFromSource | internal/config/domain.go:357-371 | The stream of sampled delays decides the clique: two runs over the same stream look pairs up in the same order, memoize the same delays and select the same members |
| OpportunisticGrowth.OrderIndependence | internal/config/domain.go:418-430 | Two runs over the same stream of delay samples and the same attachment draws have the same pair delays, the same picks and the same normalized topology, in whatever order each iterated its selected sets |
| OpportunisticGrowth.GrewUnique | internal/config/domain.go:393-430 | The draws determine every selection and every intermediate graph |
| Rings.SplitByRank | internal/config/domain.go:633-648 | The inner ring holds the given number of lexicographically smallest nodes by (delay, index); both rings are in index order and share out all nodes |
| Rings.CycleNeighbors | internal/config/domain.go:663-672 | On a ring of three or more every node has exactly two different neighbours |
| DrsGenerator.AddRings | internal/config/domain.go:655-672 | Both rings become cycles with one edge per node, and the ring maps hold exactly these edges |
| DrsGenerator.ConnectOuterRing | internal/config/domain.go:674-683 | Every outer node gets exactly beta inner neighbours, whatever the shuffles |
| DrsFill.ShortcutRound | internal/config/domain.go:696-736 | The turn of a node appends exactly the shortcuts it lacks at that moment, each to another inner node, and leaves it with at least beta inner neighbours off the ring; targets never run out |
| DrsFill.ShortcutRounds | internal/config/domain.go:685-737 | Every inner node has one turn, in the shuffled order, and the graph before and after each turn is on record |
| DrsTurns.ShortcutShare | internal/config/domain.go:685-737 | beta shortcuts at every inner node take at least c*beta/2 edges, since an edge serves at most two nodes |
| DrsBudget.MandatoryCount | internal/config/domain.go:606-737 | The mandatory part has n + o*beta edges and between c*beta/2 and c*beta shortcuts, and fits the capacity |
| DrsBudget.CapacityClosedForm | internal/config/domain.go:785-828 | The capacity is C(c,2)+C(o,2)+o*beta |
| DoubleRing.EnoughTargets | internal/config/domain.go:706-730 | Missing shortcuts and remaining targets: an inner node with s shortcuts has exactly c-3-s targets left, enough for any beta <= c-3 |
| DoubleRing.WiredCapacity | internal/config/domain.go:785-828 | With beta links per outer node at most C(c,2)+C(o,2)+o*beta edges fit, and exactly so many when both rings are complete |
| DrsCandidates.RingCandidates | internal/config/domain.go:750-779 | The candidates are the non-adjacent pairs of the ring, each exactly once, in the order in which a scan by distance and then by place first meets them |
| DrsCandidates.CandidatesUnique | internal/config/domain.go:750-779 | The ring and the edges it has decide the candidates and their order |
| DrsBudget.Fill | internal/config/domain.go:781-828 | Edge by edge the next candidate of the one or the other ring; neither ring gets ahead of its share by more than one edge unless the other's candidates are used up; ends at the budget or reports the exhausted capacity |
| DrsBudget.GenerateDRS | internal/config/domain.go:587-831 | With the mandatory part on record (rings, access links, one turn per inner node): succeeds exactly when its edges <= n*k/2 <= C(c,2)+C(o,2)+o*beta, then with exactly n*k/2 edges, that part first and the balanced nearest-first fill after it; each budget error exactly when its bound fails. So for every shuffle it succeeds when n+o*beta+c*beta <= n*k/2 <= capacity and fails when 2(n+o*beta)+c*beta > 2(n*k/2); the exhausted-targets error never occurs, and an error about a parameter names one out of its range |
| DrsBudget.FillUnique | internal/config/domain.go:750-828 | Once the mandatory part is drawn nothing is left to chance: it and the budget decide the whole edge list |
| Components.GeneratedComponents | internal/config/domain.go:958-988 | The components are exactly the reachability classes of the edge list, each node in one |
| Components.ConnectGeneratedComponents | internal/config/domain.go:938-956 | Whatever is drawn, a chain of plain edges through one node of each component is appended, components-1 edges between nodes no walk linked, and none for a single component; the list stays simple and becomes connected |
| Components.ChainConnects | internal/config/domain.go:948-954 | The chain of one representative per component connects all nodes |
| Normalize.NormalizeGeneratedEdges | internal/config/domain.go:990-1017 | Strictly sorted, and exactly the canonical first occurrences of the proper pairs |
| Normalize.NormalFormUnique | internal/config/domain.go:1006-1016 | One input has one normal form, however the map is iterated |
| Normalize.NormalFormIgnoresOrder | internal/config/domain.go:990-1017 | Lists with the same edges in any order and orientation, one baseline per pair, have the same normal form |
| Normalize.NormalFormIsSimple | internal/config/domain.go:990-1017 | The normal form is a simple graph on the same pairs, loops left out |
| Normalize.NormalFormIsIdempotent | internal/config/domain.go:990-1017 | Normalizing twice is normalizing once |
| SwarmCoordinator.Coordinator.Register | internal/controller/swarm_coordinator.go:132-161 | The four checks; while waiting exactly the well-formed requests are accepted, and an accepted one is then in its slot, in place of an earlier one, the other slots as before and a token left; later accepted only for the peer already in the slot, without effect |
| SwarmCoordinator.Coordinator.BuildRuntimeConfigs | internal/controller/swarm_coordinator.go:163-221 | Fails unless all slots are filled; else endpoints and configurations of all slots follow from the registrations |
| SwarmCoordinator.CountMeansFull | internal/controller/swarm_coordinator.go:115-123 | The count equals n exactly when slots 1..n are all filled |
| SwarmRuns.Perform | internal/controller/swarm_coordinator.go:75-161 | Whatever a move of the coordinator does to its fields, registering, waiting, building, changing the state or failing, is the step of the system that the theorems are about |
| SwarmRuns.HoldsLastAccepted | internal/controller/swarm_coordinator.go:132-161 | Over whole runs, whatever else happens, each slot holds the last request that was accepted for it while the coordinator waited |
| SwarmRuns.AllAcceptedMeansFull | internal/controller/swarm_coordinator.go:115-161 | From the start on all slots are filled exactly when every peer was told, while the coordinator waited, that it is registered |
| SwarmRuns.WaiterCanMove | internal/controller/swarm_coordinator.go:115-161 | No lost wake-up: with all slots filled a waiting coordinator always has an enabled step that brings it closer to building |
| SwarmRuns.FullMeansBuilt | internal/controller/swarm_coordinator.go:75-130 | From all slots filled, three own steps without a timeout end in configurations built from the registrations, whatever registers in between |
| SwarmRuns.AcceptedPeersAreServed | internal/controller/swarm_coordinator.go:75-228 | Once every peer was told that it is registered, three own steps without a timeout serve every slot the configuration made from the last accepted requests |
| SwarmRuns.FrozenAfterwards | internal/controller/swarm_coordinator.go:146-161 | Once the state leaves waiting_for_peers, registrations, endpoints and configurations never change |
| SwarmRuns.LateAnswers | internal/controller/swarm_coordinator.go:148-154 | From the freeze on a well-formed request is accepted, at any later time, exactly when its slot was frozen for the same peer |
| SwarmRuns.ServedConfigs | internal/controller/swarm_coordinator.go:223-228 | A served configuration is the slot's own, built from the frozen registrations, and then every slot is served |
| SwarmRuns.FrozenEndpoints | internal/controller/swarm_coordinator.go:163-177 | From the built configurations on, the endpoints handed to the experiment are exactly those of the nodes, each the control URL of the frozen registration |
| RuntimeConfigs.ConfigsAreMutual | internal/controller/swarm_coordinator.go:179-198 | Whoever u lists appears under its frozen identity and lists u under u's, with the same network |
| RuntimeConfigs.ConfigsAreSorted | internal/controller/swarm_coordinator.go:200-203 | Neighbour lists are strictly sorted by node index |
| RuntimeConfigs.ConfigLists | internal/controller/swarm_coordinator.go:179-198 | The listed neighbours are exactly the other ends of the node's edges |
| Deployment.ExpandedIsValid | internal/config/domain.go:100-129 | A simple generated edge list over distinct node ids expands to a topology that meets everything the coordinator's configuration building asks for: known ends, no self edge, no pair twice |
| Deployment.DeployedGraphIsSimple | internal/controller/swarm_coordinator.go:179-218 | The configured neighbour lists form a simple graph |
| Deployment.DeployedGraphIsGenerated | internal/config/domain.go:105-122 | Two peers are configured as neighbours exactly when the generated list has their pair |
| FinishTopology.Finish | internal/config/domain.go:105-108 | Any generated list becomes the sorted normal form of itself, or with ensure_connected of its repair, which adds exactly one edge for every reachability class after the first: simple, with the first edge of every generated pair, any other edge plain and between nodes that were not linked, connected on request and otherwise with the same classes |
| FinishTopology.ConnectedStaysAsItIs | internal/config/domain.go:105-108 | A generated list that is connected comes out as its own normal form, with or without ensure_connected |
| FinishTopology.NormalFormKeepsLinks | internal/config/domain.go:990-1017 | The normal form leaves alone which nodes are linked |
| Deployment.EveryNodeIsReached | internal/config/domain.go:108-129 | Over peers deployed from a simple connected edge list, a message at rest without a drop has been seen by every node |
| Deployment.EnsuredConnectionReachesAll | internal/config/domain.go:100-129 | Over peers deployed from any generated list finished with ensure_connected, a message at rest without a drop has been seen by every node |
| Deployment.AmpleDeploymentReachesAll | internal/config/domain.go:100-129 | Over peers deployed from any generated list finished with ensure_connected, with room in the queues for all injected messages, no loss and no failed write, a run at a standstill has brought every message to every node |
| MetricsWriter.Writer.Write | internal/metrics/writer.go:62-70 | With room in the channel: refused exactly when the writer is closed, otherwise the event is appended |
| MetricsWriter.Writer.Receive | internal/metrics/writer.go:93-102 | The oldest event leaves the channel; it is written only while there was no error |
| MetricsWriter.Writer.MarkClosed | internal/metrics/writer.go:72-84 | The first close closes the channel, later ones leave it alone |
| MetricsWriter.Writer.Finish | internal/metrics/writer.go:113-121 | The last flush, then the first of all errors is kept |
| MetricsRuns.Perform | internal/metrics/writer.go:62-121 | What the writer's methods do to its fields is the step of the system that the theorems are about |
| MetricsRuns.NoSendOnClosedChannel | internal/metrics/writer.go:62-84 | In every interleaving a producer about to send finds the channel open |
| MetricsRuns.BlockedProducerProceeds | internal/metrics/writer.go:91-102 | A producer blocked on the full channel is released by the consumer's next receive, after an error too |
| MetricsRuns.CloseIsAnswered | internal/metrics/writer.go:72-121 | On a closed writer no step adds work, each draining step takes some away, and one is enabled until the consumer is done |
| MetricsRuns.FileIsWhatWasWritten | internal/metrics/writer.go:62-121 | When Close returns without an error the file is exactly the sequence of accepted events, and so each producer's events in its own order |
| MetricsRuns.ClosersAgree | internal/metrics/writer.go:72-84 | Every call of Close returns the same error |
| MetricsRuns.CloseTellsFirstError | internal/metrics/writer.go:72-121 | Close returns the first error of the whole run, be it of a write, of a flush or of closing the file, and none only if there was none |
| MetricsRuns.ClosedStaysComplete | internal/metrics/writer.go:62-84 | Nothing is accepted after Close, and a finished writer stays as it is |
| Aggregate.Consume | internal/metrics/aggregate.go:76-117 | One event updates the accumulator of its message, made on first sight |
| Aggregate.FoldCounts | internal/metrics/aggregate.go:83-116 | Every counter of every accumulator equals the plain count, or byte sum, over the message's events |
| Aggregate.FoldReaches | internal/metrics/aggregate.go:83-102 | A message has an accumulator exactly when an event names it; its reached set is the nodes of its creation and first receptions |
| Aggregate.AggregationIgnoresOrder | internal/metrics/aggregate.go:73-120 | Messages, reached sets and counters are the same for every permutation of the events |
| Aggregate.TotalsArePlainCounts | internal/metrics/aggregate.go:150-162 | Each run total is the plain count, or byte sum, over all events with a non-empty message id |
| Aggregate.TotalsIgnoreOrder | internal/metrics/aggregate.go:150-162 | Run totals are the same for every permutation of the events |
| Aggregate.MeanReachabilityIsPlainCount | internal/metrics/aggregate.go:150-166 | The mean reachability is the number of different pairs of a message and a node that created or first received it, over nodes times messages |
| Aggregate.MeanReachabilityIgnoresOrder | internal/metrics/aggregate.go:150-166 | The mean reachability is the same for every permutation of the events |
| Aggregate.LastUniqueIsLatest | internal/metrics/aggregate.go:89-102 | The recorded time is the latest of creation and first receptions exactly when no first reception consumed before the creation is later than everything from the creation on |
| Aggregate.LastUniqueWithoutCreation | internal/metrics/aggregate.go:94-102 | Without a creation event the recorded time is the latest first reception, or 0 |
| Aggregate.CompletionDelay | internal/metrics/aggregate.go:128-131 | The completion delay is the time from the creation to the latest first reception read after it, in milliseconds, and 0 without a creation or a positive creation time |
| Aggregate.EarlyReceptionIsLost | internal/metrics/aggregate.go:65-102 | The failing input: n1.jsonl, read before n2.jsonl, holds a reception of a message that n2 created, and the recorded time stays that of the creation |
| Aggregate.RowsUnique | internal/metrics/aggregate.go:122-148 | The sorted rows do not depend on the order in which the map was iterated |
| Aggregate.DelaysAreSpans | internal/metrics/aggregate.go:128-153 | The delays add up to the times from creation to last unique reception, message by message |
| Aggregate.FirstProtocolIs | internal/metrics/aggregate.go:76-79 | The protocol of the run is that of the first event that names one |
| Aggregate.Aggregate | internal/metrics/aggregate.go:64-179 | No files is an error; otherwise one sorted row per message, totals equal to plain counts and averages equal to means over the rows |

## Left out

- libp2p hosts, streams, gating and resets: a directed edge is a reliable first-in-first-out transport, and a failed write is a recorded drop.
- Context cancellation, shutdown and finalization, where items vanish without a record: all flooding statements are about the time before.
- Time: delays, jitter, serialization and timestamps are only points where other steps may come in between; loss is any choice allowed by the loss rate.
- Message ids, payloads and event fields: an id is the pair of origin and an unbounded sequence number, so injected ids are fresh; the uint64 counter and the id's string form are not modelled.
- Records of events: a frame's registration, or the start of a forwarding, is one step with the event recorded about it; in the code the record is made just outside the lock.
- Handlers of one peer: the model lets any number of received messages of one peer be in progress at once, in a superset of the orders the stream readers allow.
- FloodingCoverage.Coverage: HopWave with real troughs (cycle length above 1 and factor below 1) is not covered, since a trough leaves neighbours out by design.
- FloodingTree.FrameHops: stated for fewer than 2^32 peers, since the wire fields are 32 bits wide and wrap beyond.
- Random streams, seeds and distributions: draws are arbitrary; that the loop drawing an unexcluded node ends with probability one is outside the model, and no generator reaches it.
- Rounding: weights, scores, averages and the core size are computed over the reals.
- Sorting: sort.Slice, sort.Strings and sort.Ints are replaced by insertion sorts; the results are determined by the order alone.
- Messages in the aggregator: the accumulator is a value in the table, not a pointer shared with it.
- MetricsWriter.Writer.Send: the blocking send is a method with room in the channel as precondition; the waiting itself is a step of the run system.
- The writer's file and buffer hold whole events; where a byte-level flush splits a line is not modelled.
- SwarmCoordinator.Coordinator.Register: whether the libraries accept a peer id or address is a parameter.
- Runtime configuration fields that are copied from the scenario (run id, protocol, seed, paths, metrics, performance) are left out of the node configuration.
- Event decoding, CSV, JSON and archive output, and errors of reading or writing result files.
- Resolving and validating node and edge performance settings: baselines enter the generators as non-negative numbers.
- ER, ring, path, complete and grid generators, matrix expansion, defaults, validation, expression parsing, traffic plans and staged scaling: easy next to the rest.
- Command line, Docker and Swarm plumbing, HTTP handlers and clients, and scripts.
