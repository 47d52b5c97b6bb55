# Verified model of the path-hopping repository

This project models the logic at the centre of the repository and proves what it is for.

- **The path-hopping simulator and its attackers.** A flow splits every message into K shares that travel on K
  sampled, node-disjoint paths; attackers watch nodes and recover a message when they have seen all its shares.
  `Transport` gives the closed form of the transport (where every share is after n steps), `Ledger` the meaning of the
  receiver's counters, `Network` and `Simulator` the mutable objects and the simulation step, proved against that
  closed form for any number of flows and any iteration order. `Attack` is the attackers as a state machine,
  `Attackers` the class that implements it, `Recovery`, `Sweep` and `Timing` when each strategy re-selects and the exact conditions
  under which it recovers a message, `Reconstruction` the sort-and-group step, `ParallelGraph` the substrate of the experiments and
  `Experiment` the driver, end to end. Sampling is a nondeterministic choice, so every result holds for every outcome.
- **Flow allocation.** `Traversal` is the worklist search that turns an edge-flow solution into weighted paths, proved to
  be an exact enumeration; `Decomposition` is what its ratios sum to, with conservation of flow as precondition; `Greedy` is
  the admission loop. Rates are `real`.
- **Supporting pieces.** `Tags` (path tags, the codepoint byte and the weighted path selector), `LinkCounters` (utilization from
  byte counters), `Text` and `MirroringFiles` (files exchanged with the mirroring solvers) and `Expansion` (rates per second
  from volumes per timeslot).

`Basics` and `Products` hold shared vocabulary. The main results are `Simulator.Simulation.Step` with `Totals` and
`Latency`; `Sweep.PlannedRecovers` and the recovery theorems; `Experiment.ConductPathHoppingSimulation`;
`Traversal.TraverseGraphIterative`; `Decomposition.RatiosSumToOneIff`; `Greedy.ComputeGreedyFlowAllocations`;
`Tags.SelectionIdentifiesPath`; `LinkCounters.MeanTelescopes`; `Timing.PeriodicSelects` and `Timing.OneNodeSelects`; and the
reading theorems and round trips in `MirroringFiles`.

Results that contradict an expectation, each with its exact condition:

- The splitting ratios of a conserved solution can sum to more than 1 (`RatiosCanExceedOne`); without noise they sum to exactly
  1 iff there is one route or every route has a link on no other route and on no cycle (`RatiosSumToOneIff`). With noise
  they sum to at least 1 minus the noise (`RatiosSumToAtLeast`).
- The utilization reported by greedy allocation can exceed the load of the admitted flows, by what the refused flow left behind; it is
  exact iff that flow's first link has no room (`ComputeGreedyFlowAllocations`, with the input of `ReportedAboveLoad`).
- Mean link utilization loses exactly what is sent while an interface is missing from the snapshots, and gains exactly what
  repeated listings add (`MeanTelescopes`, with the inputs of `GapsAreLost` and `RepeatsAddUp`).
- Paths of one pair of end points get different bytes iff there are at most 64 of them (`BytesDifferIff`).
- A sweep of the planned attacker sees all paths iff they have (ceil(N/K) - 1) * P + 1 interior nodes (`SweepSeesAllIff`); on
  shorter ones it misses a path and every message on it (`ShortSweepMisses`), and with a hop period longer than the paths it is
  a random path attacker (`SlowSweepRecovers`). The trial the program conducts is of that kind (`ConductedTrialIsShort`).
- Solution files keep only the last objective value, switch files drop switches without ports, and port-mirroring flow
  files are never read back as printed (`SolutionsRoundTrip`, `PortsRoundTrip`, `PortFlowsDoNotRoundTrip`).
- The one-node-per-path attacker's hop period is no period: it hops in the steps that share no bit with it, and never in step
  `period` (`OneNodeSelects`, `OneNodeSkipsItsPeriod`).
- The weighted selector can take a path without weight: iff the pick is exactly zero and the first path has none
  (`PositiveWeightIff`, with the input of `ZeroPick`).

Where code and comments disagree the code is modelled: greedy allocation splits a flow evenly over all node-disjoint paths
(its comment speaks of the K least utilized paths); remaining capacities are divided by the duration of a timeslot like
volumes per slot (a comment calls them volumes per second); and the path-hopping trial starts its tags at 0 (a comment in
the traffic generator reserves 0), while the route adder starts at 1.

Check everything with `dafny verify dfyconfig.toml`.

## Model

| member | source | states |
|---|---|---|
| `Simulator.Simulation.Step` | rest_client/path_hopping_simulator/simulator.py:46-77 | One step of any simulation (any number of flows, any iteration order of dictionaries and sets) keeps the closed form: n = ticks - 1 steps after the start the share of message s on path p is resident at p[n - s] and nowhere else, or has left the network and been delivered once. Attackers keep following their strategies and nothing recorded earlier changes. |
| `Simulator.Simulation.constructor` | rest_client/path_hopping_simulator/simulator.py:13-18 | A simulation of empty nodes and flows that have sent nothing satisfies the closed form for zero steps. |
| `Simulator.Simulation.AddAttacker` | rest_client/path_hopping_simulator/simulator.py:43-44 | A new attacker joins, before the first step or later; the closed form is kept. |
| `Simulator.Simulation.InjectNewShares` | rest_client/path_hopping_simulator/simulator.py:47-51 | After phase 1 every flow has sent message n and its shares are at its source, whatever the order of the flows. |
| `Simulator.Simulation.CollectMoves` | rest_client/path_hopping_simulator/simulator.py:54-62 | Phase 2 empties all nodes; the shares to inject at y are exactly those that belong at y one move later, and exactly the shares at the end of their path have been delivered. |
| `Simulator.Simulation.DrainNode` | rest_client/path_hopping_simulator/simulator.py:56-62 | Draining one node moves its shares and only those, in any order. |
| `Simulator.Simulation.MoveShare` | rest_client/path_hopping_simulator/simulator.py:57-61 | One share is either delivered (end of its path) or queued for the node one further on its own path. |
| `Simulator.Simulation.Deliver` | rest_client/path_hopping_simulator/simulator.py:59 | Delivering a share adds it to its flow's deliveries and leaves the other flows as they were. |
| `Simulator.Simulation.DepositMoves` | rest_client/path_hopping_simulator/simulator.py:64-66 | After phase 3 every node holds exactly the shares that belong there after one more move. |
| `Simulator.Simulation.HopFlows` | rest_client/path_hopping_simulator/simulator.py:69-70 | Re-sampling paths moves no share and changes no delivery; it extends each flow's history by one sample. |
| `Simulator.Simulation.MoveAll` | rest_client/path_hopping_simulator/simulator.py:46-70 | The phases together refine "advance all shares by one node, simultaneously". |
| `Simulator.Simulation.RunAttackers` | rest_client/path_hopping_simulator/simulator.py:73-75 | Each attacker captures from the positions after the move and then re-selects; the network is not touched. |
| `Simulator.Simulation.Totals` | rest_client/path_hopping_simulator/simulator.py:46-66 | Over every run, for every flow: messages_tx is the number of steps and equals messages_rx plus the open counters; every open counter is below K; messages_rx counts exactly the messages whose shares have all travelled their whole path; K * messages_tx equals resident plus delivered shares. |
| `Simulator.Simulation.SharesAddUp` | rest_client/path_hopping_simulator/simulator.py:46-66 | Conservation in program variables: K * messages_tx == resident shares of the flow + K * messages_rx + the sum of the open counters. |
| `Simulator.Simulation.Latency` | rest_client/path_hopping_simulator/simulator.py:283-292 | If no path has more than L nodes, after n steps messages_rx >= n - (L - 1) and at most K * (L - 1) shares are resident; with equal lengths messages_rx == max(0, n - L + 1). |
| `Simulator.Simulation.InteriorHoldsAtMostOne` | rest_client/path_hopping_simulator/simulator.py:46-66 | With one flow on internally disjoint paths the resident set of an interior node never has more than one share. |
| `Transport.Conservation` | rest_client/path_hopping_simulator/simulator.py:46-66 | K * sent == resident + delivered: every share created is on exactly one node or delivered. |
| `Transport.CompletedIff` | rest_client/path_hopping_simulator/simulator.py:283-287 | A message is complete after t steps iff each of its K routes is at most t - s nodes long. |
| `Transport.LatencyBound` | rest_client/path_hopping_simulator/simulator.py:46-66 | Lower bound on completed messages and upper bound on shares in flight from the longest path. |
| `Transport.LatencyExact` | rest_client/path_hopping_simulator/simulator.py:46-66 | With equal lengths the completed messages are exactly the first n - L + 1. |
| `Transport.InteriorHoldsAtMostOne` | rest_client/path_hopping_simulator/simulator.py:262-281 | With one flow on internally disjoint paths no interior node ever holds two shares. |
| `Ledger.CounterIsPresent` | rest_client/path_hopping_simulator/simulator.py:283-284 | receive_share never looks up a missing counter. |
| `Ledger.SendKeepsBalance` | rest_client/path_hopping_simulator/simulator.py:275-278 | Sending keeps the meaning of the counters: one open counter per unfinished message, holding its number of delivered shares, and messages_rx the number of finished ones. |
| `Ledger.ReceiveKeepsBalance` | rest_client/path_hopping_simulator/simulator.py:283-287 | So does receiving, whether or not it finishes the message and deletes its counter. |
| `Ledger.MessagesAddUp` | rest_client/path_hopping_simulator/simulator.py:275-287 | messages_tx == messages_rx + open counters, and 0 <= counter < K. |
| `Ledger.FinishedIsCompleted` | rest_client/path_hopping_simulator/simulator.py:283-287 | The messages with K delivered shares are the completed ones. |
| `Ledger.DeliveredIsCounted` | rest_client/path_hopping_simulator/simulator.py:283-287 | Delivered shares are K per received message plus the open counters. |
| `Network.Flow.constructor` | rest_client/path_hopping_simulator/simulator.py:177-196 | A new flow has sent and received nothing and has its first sample of K distinct paths. |
| `Network.Flow.NextHop` | rest_client/path_hopping_simulator/simulator.py:262-268 | The node after the current one on the share's own path, or -1 at the end. |
| `Network.Flow.CreateShares` | rest_client/path_hopping_simulator/simulator.py:275-281 | K shares of a fresh message, share j on the j-th active path; the books stay balanced. |
| `Network.Flow.ReceiveShare` | rest_client/path_hopping_simulator/simulator.py:283-287 | Adds the share to the delivered ones and keeps the books balanced. |
| `Network.Flow.Hop` | rest_client/path_hopping_simulator/simulator.py:289-292 | A fresh sample of K distinct paths; the past is unchanged. |
| `Network.Node.VulnerableShares` | rest_client/path_hopping_simulator/simulator.py:161-163 | Lists once each the resident shares that neither start nor end here. |
| `Network.Node.ReceiveShare` | rest_client/path_hopping_simulator/simulator.py:165-166 | Adds one share. |
| `Network.Node.ClearResidentPackets` | rest_client/path_hopping_simulator/simulator.py:168-169 | Empties the node. |
| `Basics.ChooseDistinct` | rest_client/path_hopping_simulator/simulator.py:291-292 | K distinct indices; callers learn nothing else, so results hold for every random outcome. |
| `Attackers.Attacker.constructor` | rest_client/path_hopping_simulator/attackers.py:9-15 | A new attacker has captured nothing and has made the selection its creation calls for. |
| `Attackers.Attacker.Monitor` | rest_client/path_hopping_simulator/attackers.py:29-34 | Captures exactly the shares passing through monitored nodes, once each; the planned attacker notes which paths it looked at. |
| `Attackers.Attacker.CaptureShares` | rest_client/path_hopping_simulator/attackers.py:251-265 | Appends the vulnerable shares of one node, and marks the first path that holds the node. |
| `Attackers.Attacker.Select` | rest_client/path_hopping_simulator/attackers.py:54-294 | Re-selection by strategy (random node, random path, ideal path, one node per path, fixed, planned, total): what is sampled, when, and what is left alone. |
| `Attackers.Attacker.SelectPlanned` | rest_client/path_hopping_simulator/attackers.py:228-249 | The planned selection: a new sweep when the paths are exhausted, otherwise up to K nodes at the current hop on paths not yet looked at; the hop index is never out of range. |
| `Attackers.Attacker.Observe` | rest_client/path_hopping_simulator/simulator.py:74-75 | One step extends the attacker's run of the strategy state machine by one state. |
| `Attackers.SampleFirstHops` | rest_client/path_hopping_simulator/attackers.py:84-98 | K first hops of different paths that have an interior. |
| `Attackers.SampleInteriors` | rest_client/path_hopping_simulator/attackers.py:121-135 | All interior nodes of K different paths. |
| `Attackers.SampleOnePerPath` | rest_client/path_hopping_simulator/attackers.py:196-201 | One interior node on each of K different paths, in every draw that meets no path without an interior. |
| `Attack.RunIsStable` | rest_client/path_hopping_simulator/attackers.py:29-34 | What an attacker has captured does not depend on how the simulation continues. |
| `Attack.RunExtends` | rest_client/path_hopping_simulator/attackers.py:29-34 | A run followed by a step of the strategy is a run. |
| `Recovery.CapturedSinceIff` | rest_client/path_hopping_simulator/attackers.py:29-34 | Whenever the attacker joined, a share has been captured iff it was on a monitored node, not its source or sink, right after some step since. |
| `Recovery.RecoversSinceIff` | rest_client/path_hopping_simulator/attackers.py:39-47 | For every strategy and every time of joining: message s has been recovered after t steps iff each of its K shares was watched at an interior hop it had reached. |
| `Recovery.RecoversIff` | rest_client/path_hopping_simulator/attackers.py:39-47 | The same for an attacker that joins at the start, as in the driver. |
| `Recovery.WatchingMoreRecoversMore` | rest_client/path_hopping_simulator/attackers.py:29-47 | Watching a superset of nodes in every step recovers a superset of messages. |
| `Recovery.TotalRecovers` | rest_client/path_hopping_simulator/attackers.py:291-294 | The total attacker recovers a message iff none of its paths goes straight from source to sink; so all of 0..n-1 when every path has three nodes. |
| `Recovery.RandomPathRecovers` | rest_client/path_hopping_simulator/attackers.py:84-99 | The random path attacker recovers s iff the nodes it watches in the step that sends s are exactly the first hops of s's active paths, for every hop period. |
| `Recovery.IdealRecovers` | rest_client/path_hopping_simulator/attackers.py:120-136 | The ideal attacker recovers s iff each of s's paths was sampled in some step with the share on an interior node. |
| `Recovery.FixedRecovers` | rest_client/path_hopping_simulator/attackers.py:193-202 | The fixed attacker recovers s iff s's active paths are its own K paths and n >= s + each monitored hop index. |
| `Timing.PeriodicSelects` | rest_client/path_hopping_simulator/attackers.py:54-136 | Every run of the random node, random path and ideal attackers, whenever they join: in the multiples of the hop period they watch a fresh sample and count one hop more; in all other steps what they watch and the count stay. |
| `Timing.PeriodicStarts` | rest_client/path_hopping_simulator/attackers.py:66-68 | On creation they select (at time 1) iff the hop period is 1; otherwise they watch nothing. |
| `Timing.PeriodicHopCount` | rest_client/path_hopping_simulator/attackers.py:60-63 | After i steps they have hopped i / period times, and once more if the period is 1. |
| `Timing.PeriodicWatches` | rest_client/path_hopping_simulator/attackers.py:54-136 | After i steps they watch the sample of the last multiple of the hop period, and nothing before the first multiple (unless the period is 1). |
| `Timing.WatchedCount` | rest_client/path_hopping_simulator/attackers.py:54-172 | On disjoint paths with L interior nodes each, a fresh selection has K nodes, the ideal attacker's K * L, and never the flow's end points. |
| `Timing.RandomPathBySample` | rest_client/path_hopping_simulator/attackers.py:84-99 | The random path attacker recovers s iff it had selected by then and its sample of the last multiple of the hop period is the set of the first hops of s. |
| `Timing.RandomPathOnAll` | rest_client/path_hopping_simulator/attackers.py:84-99 | With K equal to the number of paths it recovers s iff the hop period is 1 or s is at least the hop period. |
| `Timing.IdealOnAll` | rest_client/path_hopping_simulator/attackers.py:120-136 | With K equal to the number of paths, L interior nodes each, the ideal attacker recovers within n steps s iff the period is 1, or s >= period, or s was still inside at the first selection (period < n and period < s + L). |
| `Timing.NothingBefore` | rest_client/path_hopping_simulator/attackers.py:54-136 | None of the three recovers a message that left the interior before the first selection. |
| `Timing.OneNodeSelects` | rest_client/path_hopping_simulator/attackers.py:160-172 | Every run of the one-node-per-path attacker, for every hop period: it watches a fresh sample and counts one hop more exactly in the steps that have none of the period's bits, and rests in all others (the source tests a bitwise and). |
| `Timing.OneNodeStarts` | rest_client/path_hopping_simulator/attackers.py:166-185 | On creation, at time 1, it selects iff the hop period is even. |
| `Timing.OneNodeSkipsItsPeriod` | rest_client/path_hopping_simulator/attackers.py:166 | For every hop period it rests in step `period`, in which the other attackers re-select. |
| `Timing.OneNodeRepeats` | rest_client/path_hopping_simulator/attackers.py:166 | The steps of a run in which it hops repeat after any power of two above the period. |
| `Timing.OneNodeTiming` | rest_client/path_hopping_simulator/attackers.py:166 | With hop period 2^b it hops exactly in the steps t with t / 2^b even: in every step of one block of 2^b steps and in none of the next. |
| `Timing.OneNodeWatches` | rest_client/path_hopping_simulator/attackers.py:160-172 | Until its first selection it watches nothing, and from then on one interior node on each of K paths. |
| `Timing.OneNodeOnAll` | rest_client/path_hopping_simulator/attackers.py:160-172 | With K equal to the number of paths, one interior node each, it recovers exactly the messages sent after its first selection. |
| `Timing.OtherHopCounts` | rest_client/path_hopping_simulator/attackers.py:193-202 | The fixed attacker selects once, on creation; the planned and the total attacker count no hops. |
| `Sweep.SweepInvariant` | rest_client/path_hopping_simulator/attackers.py:228-265 | After every step of every run the planned attacker is at a definite stage of a sweep: hop index, paths seen and nodes watched follow from the number of steps and what the earlier windows of the sweep drew. A window that falls on the sink watches nothing. |
| `Sweep.RecoversByDraws` | rest_client/path_hopping_simulator/attackers.py:228-265 | Message s is recovered within n steps iff it is one of the first `period` of its sweep and each of its paths was drawn, in time, by a window of that sweep (products and remainders by repetition). |
| `Sweep.PlannedRecovers` | rest_client/path_hopping_simulator/attackers.py:228-265 | Planned attacker, exact, for N equal-length disjoint paths with any number L >= 1 of interior nodes, any K, any hop period P and any number n of steps: with cycle = P * min(ceil(N/K), L/P + 1), s is recovered iff s % cycle < P and each path of s was drawn by a window z of its sweep with s + z*P + 1 <= n. |
| `Sweep.SweepRecovers` | rest_client/path_hopping_simulator/attackers.py:228-265 | If the paths have at least (r-1)P+1 interior nodes, r = ceil(N/K), then whatever the samples were, every s with s + (r-1)P + 1 <= n is recovered iff s % (r*P) < P. |
| `Sweep.WholeSweepsRecover` | rest_client/path_hopping_simulator/attackers.py:228-265 | After m whole such sweeps exactly the s < m*r*P with s % (r*P) < P are recovered; for P = 1 these are 0, r, 2r, ..., (m-1)r. |
| `Sweep.SweepSeesAllIff` | rest_client/path_hopping_simulator/attackers.py:228-265 | A sweep whose last window has begun drew every path iff the paths have at least (r-1)P+1 interior nodes. |
| `Sweep.ShortSweepMisses` | rest_client/path_hopping_simulator/attackers.py:228-265 | On shorter paths every sweep, finished or not, misses some path, and no message of the sweep that travels on it is ever recovered. |
| `Sweep.SlowSweepRecovers` | rest_client/path_hopping_simulator/attackers.py:228-265 | If the hop period exceeds the number of interior nodes, as in the trial the program conducts, the planned attacker is no better than a random path attacker: s is recovered iff the nodes watched in the step that sends s are the first hops of its paths. |
| `Sweep.DirectPathsAreSafe` | rest_client/path_hopping_simulator/simulator.py:161-163 | On paths without interior nodes no attacker recovers anything. |
| `Reconstruction.Reconstruct` | rest_client/path_hopping_simulator/attackers.py:39-47 | Sorting and grouping yields, strictly increasing, exactly the sequence numbers with K distinct captured share numbers. |
| `Reconstruction.SortSorts` | rest_client/path_hopping_simulator/attackers.py:41 | The sorted list is ordered by sequence number and has the same shares. |
| `Reconstruction.GroupAt` | rest_client/path_hopping_simulator/attackers.py:43-45 | A group is a maximal run of one sequence number, with its set of share numbers. |
| `ParallelGraph.BuildNParallelGraph` | rest_client/path_hopping_simulator.py:19-40 | N chains of L nodes, numbered through, between source and sink: N*L + 2 nodes and N*(L+1) edges; an empty graph for N = 0. |
| `ParallelGraph.SimplePathsAreRoutes` | rest_client/path_hopping_simulator.py:35-39 | Every simple source-sink path of that graph is the source, one whole chain, then the sink. |
| `ParallelGraph.RoutesAreSimplePaths` | rest_client/path_hopping_simulator.py:35-39 | Each of these is a simple path of the graph. |
| `ParallelGraph.RoutesAreDisjoint` | rest_client/path_hopping_simulator.py:35-39 | All N of them are internally disjoint. |
| `ParallelGraph.DisjointPathsOfGraph` | rest_client/path_hopping_simulator/simulator.py:245-249 | Any maximum family of disjoint paths of that graph has N members, each with L + 2 nodes, on the chains. |
| `ParallelGraph.MaximumExists` | rest_client/path_hopping_simulator/simulator.py:245 | There is such a family. |
| `Experiment.CreateFlow` | rest_client/path_hopping_simulator/simulator.py:223-254 | A flow on the disjoint paths, refused when there are fewer than N. |
| `Experiment.CreateNodes` | rest_client/path_hopping_simulator/simulator.py:37-41 | One empty node per graph node. |
| `Experiment.Join` | rest_client/path_hopping_simulator.py:76-77 | Adds one attacker. |
| `Experiment.Run` | rest_client/path_hopping_simulator.py:79-80 | Any number of steps keeps the closed form. |
| `Experiment.Report` | rest_client/path_hopping_simulator.py:88-99 | An attacker's report is, in increasing order, what its run recovers. |
| `Experiment.PlannedOutcome` | rest_client/path_hopping_simulator.py:98-99 | PlannedRecovers on the parallel graph, for every duration. |
| `Experiment.FullSweepOutcome` | rest_client/path_hopping_simulator.py:98-99 | SweepRecovers on the parallel graph. |
| `Experiment.SlowSweepOutcome` | rest_client/path_hopping_simulator.py:98-99 | SlowSweepRecovers on the parallel graph. |
| `Experiment.ShortSweepOutcome` | rest_client/path_hopping_simulator.py:98-99 | ShortSweepMisses on the parallel graph: the report has no message of sweep m on the missed path. |
| `Experiment.ConductedTrialIsShort` | rest_client/path_hopping_simulator/trials.py:97-113 | For the parameters of the trial the program conducts, the chains are too short for a sweep to see all paths. |
| `Experiment.FinderExists` | rest_client/path_hopping_simulator/simulator.py:245 | There is a function that finds the disjoint paths of the parallel graph as demanded. |
| `Experiment.FixedOutcome` | rest_client/path_hopping_simulator.py:96-97 | FixedRecovers on the parallel graph, for the paths and hops the attacker drew. |
| `Experiment.RandomPathOutcome` | rest_client/path_hopping_simulator.py:88-89 | RandomPathRecovers on the parallel graph. |
| `Experiment.IdealOutcome` | rest_client/path_hopping_simulator.py:92-93 | IdealRecovers on the parallel graph. |
| `Experiment.TotalOutcome` | rest_client/path_hopping_simulator.py:65 | The total attacker recovers every message of the run. |
| `Experiment.ConductPathHoppingSimulation` | rest_client/path_hopping_simulator.py:42-99 | End to end, for all parameters, every duration and every outcome of the sampling: each of the seven reports, named field by field with its strategy, is, in increasing order, what a run of that strategy recovers, and the recovered messages are exactly as the theorems above say, the planned attacker's included. With K = N the random path and ideal reports are closed forms in duration, hop period and L; so is the one-node-per-path report with L = 1. |
| `Traversal.TraverseGraphIterative` | rest_client/path_hopping/flow_allocation.py:958-990 | Returns every simple s-t path whose edges all have F > 0.001, each exactly once, in non-decreasing length, paired with min(1.0, smallest edge value); it ends on every F, cyclic or not, and for s == t returns nothing. |
| `Traversal.Expand` | rest_client/path_hopping/flow_allocation.py:977-988 | One path is extended by exactly its next hops that close no loop. |
| `Traversal.NextHopsAre` | rest_client/path_hopping/flow_allocation.py:959-968 | The next hops are exactly the outgoing entries above the noise threshold. |
| `Traversal.CarriesIff` | rest_client/path_hopping/flow_allocation.py:959-968 | A link carries a flow iff the flow's ratio on it is more than 0.001. |
| `Traversal.RouteIff` | rest_client/path_hopping/flow_allocation.py:958-990 | So a route is a simple s-t path on each of whose links the ratio is more than 0.001. |
| `Traversal.SoundStep` | rest_client/path_hopping/flow_allocation.py:974-988 | Every queued path is a simple path carrying flow, and every finished one ends at t. |
| `Traversal.CompleteStep` | rest_client/path_hopping/flow_allocation.py:974-988 | Every s-t path not yet found extends a queued one. |
| `Traversal.PrefixFreeStep` | rest_client/path_hopping/flow_allocation.py:974-988 | No path in the worklist or result is a prefix of another, so none is found twice. |
| `Traversal.ByLengthStep` | rest_client/path_hopping/flow_allocation.py:974-988 | The worklist spans at most two lengths in order, so results come shortest first. |
| `Traversal.WorkShrinks` | rest_client/path_hopping/flow_allocation.py:974-988 | The sum of W(V - length) over queued paths, W(k) = 1 + d*W(k-1), decreases in every round. |
| `Decomposition.PathExists` | rest_client/path_hopping/flow_allocation.py:464-478 | As long as more flows from s than the entries at or below 0.001 can carry, some simple path to t lies above that threshold. |
| `Decomposition.Decompose` | rest_client/path_hopping/flow_allocation.py:464-478 | A conserved flow, but for the noise, is a non-negative combination of its simple s-t paths plus a conserved rest. |
| `Decomposition.CirculationNeedsCycle` | rest_client/path_hopping/flow_allocation.py:464-478 | A conserved flow of value zero has no weight on a link outside every cycle. |
| `Decomposition.RatiosSumToAtLeast` | rest_client/path_hopping/flow_allocation.py:958-1016 | For every conserved non-negative F the returned ratios sum to at least 1 minus the sum of the entries at or below 0.001. |
| `Decomposition.RatiosSumToAtLeastOne` | rest_client/path_hopping/flow_allocation.py:958-1016 | If no non-zero entry is at or below 0.001 they sum to at least 1. |
| `Decomposition.RatiosSumToOneIff` | rest_client/path_hopping/flow_allocation.py:958-1016 | For every conserved F without noise, cyclic or not, they sum to exactly 1 iff F has one route or every route of F has a link on no other route and on no cycle; and then the weighted routes reproduce F edge by edge iff F has no cycle. |
| `Decomposition.CycleNotCovered` | rest_client/path_hopping/flow_allocation.py:979-981 | If the ratios sum to 1, the weighted routes leave part of every link on a cycle unaccounted for. |
| `Decomposition.DisjointRoutesSumToOne` | rest_client/path_hopping/flow_allocation.py:1002-1006 | When no two routes share a link, they sum to 1 iff there is one route or every route has a link on no cycle. |
| `Decomposition.DisjointSolutionIsExact` | rest_client/path_hopping/flow_allocation.py:958-1016 | If the positive edges form internally node-disjoint s-t paths the ratios sum to exactly 1 and reproduce F. |
| `Decomposition.RatiosCanExceedOne` | rest_client/path_hopping/flow_allocation.py:1004-1007 | A six-link conserved solution whose ratios sum to more than 1: the case the source prints a warning about. |
| `Decomposition.ComputeMcfFlowRoutes` | rest_client/path_hopping/flow_allocation.py:992-1016 | In increasing order of flow index, for each flow mentioned in F, the exact enumeration of its routes, with ratios summing to at least 1 minus the noise where F is conserved. |
| `Greedy.ComputeGreedyFlowAllocations` | rest_client/path_hopping/flow_allocation.py:146-190 | Admits exactly the candidates before the first that does not fit beside the load of all earlier ones; at least 2 and at most 10 * E flows are ever admitted, so the endless loop ends. Reported utilization lies between admitted load and capacity on every link; the gap is one share of the refused flow on the links tried before the one without room and zero elsewhere; it is zero everywhere iff the refused flow's very first link has no room. |
| `Greedy.TryAdmit` | rest_client/path_hopping/flow_allocation.py:171-181 | A flow is admitted iff every link it uses has room for its share, judged on the utilization before any of its own links was charged; a refused flow leaves its share on the links tried first. |
| `Greedy.TryPath` | rest_client/path_hopping/flow_allocation.py:173-177 | The same for one path of the flow. |
| `Greedy.PathsShareNoLink` | rest_client/path_hopping/flow_allocation.py:169 | Node-disjoint paths share no link. |
| `Greedy.LinksOnce` | rest_client/path_hopping/flow_allocation.py:169-177 | A flow uses a link at most once. |
| `Greedy.LoadIsOneShare` | rest_client/path_hopping/flow_allocation.py:171-177 | So its load on a link is one share or nothing. |
| `Greedy.SharesMakeTheRate` | rest_client/path_hopping/flow_allocation.py:167-171 | The shares of a flow's paths make up its rate, and none is more than 0.5. |
| `Greedy.FirstTwoFit` | rest_client/path_hopping/flow_allocation.py:20-22 | The first two candidates always fit. |
| `Greedy.LoadsStep` | rest_client/path_hopping/flow_allocation.py:160-189 | At every loop head utilization is the summed load of the admitted flows. |
| `Greedy.TotalGrows` | rest_client/path_hopping/flow_allocation.py:167-177 | Admitting a flow raises total utilization by at least FLOW_TX_RATE_LOWER_BOUND. |
| `Greedy.Refused` | rest_client/path_hopping/flow_allocation.py:174-181 | What a refused flow leaves behind, link by link. |
| `Greedy.ReportedAboveLoad` | rest_client/path_hopping/flow_allocation.py:160-190 | A stream on a line of three nodes on which every run reports a link half used that no admitted flow uses. |
| `Tags.TagTable.TagPaths` | rest_client/path_hopping.py:151-165 | Every path gets the next tag of its own pair of end points. |
| `Tags.TagTable.TagRoute` | rest_client/mp_routing/onos_route_adder.py:45-54 | Every path of a route gets the next tag of the flow's pair of end points. |
| `Tags.TagTable.Next` | rest_client/mp_routing/onos_route_adder.py:49-53 | The next tag is the first tag plus the number of tags already given to that pair. |
| `Tags.TagFlows` | rest_client/path_hopping.py:179-190 | The tags of all flows of a path-hopping trial, counted from 0, each determined by the path's position among all paths. |
| `Tags.InstallRoutes` | rest_client/mp_routing/onos_route_adder.py:27-35 | The same for the route adder: every path counted under the end points of its flow, from 1. |
| `Tags.TagsAreConsecutive` | rest_client/mp_routing/onos_route_adder.py:27-35 | The tags given to one pair are consecutive from the first. |
| `Tags.TagsDiffer` | rest_client/path_hopping.py:151-165 | Tags of one pair are pairwise distinct. |
| `Tags.TrialTagsDiffer` | rest_client/path_hopping.py:151-190 | Across all flows of a trial, different paths between the same end points have different tags. |
| `Tags.BytesOfTags` | traffic_generation/traffic_gen.py:220-221 | The type-of-service byte of a shifted tag has its two low bits clear, and tags share a byte iff they agree modulo 64. |
| `Tags.BytesDifferIff` | traffic_generation/traffic_gen.py:140-141 | The bytes of one pair of end points are pairwise different iff it has at most 64 paths in the trial. |
| `Tags.TrialBytesDiffer` | rest_client/path_hopping.py:151-190 | Then different paths of that pair, in any flows of the trial, have different bytes. |
| `Tags.SelectDscp` | traffic_generation/traffic_gen.py:211-218 | Returns four times the tag of the first path whose cumulative weight reaches the pick, nothing if none does, and fails if that path has no tag. |
| `Tags.SelectsByInterval` | traffic_generation/traffic_gen.py:211-218 | For non-negative weights and a positive pick that is the unique path whose cumulative interval holds the pick, and its weight is positive. |
| `Tags.PositiveWeightIff` | traffic_generation/traffic_gen.py:211-218 | For every pick >= 0 the selected path has positive weight iff the pick is positive or the first path has weight. |
| `Tags.ZeroPick` | traffic_generation/traffic_gen.py:212-218 | At weights 0 and 1 a pick of zero selects the path without weight. |
| `Tags.SelectableIff` | traffic_generation/traffic_gen.py:211-218 | Whatever the weights sum to, a pick in (0, 1] can select path i iff its weight is positive and the weights before it sum to less than 1. |
| `Tags.RouteIsSelected` | traffic_generation/traffic_gen.py:211-218 | With the splitting ratios of a conserved F every pick in (0, 1 - noise] selects a route; without noise every pick in (0, 1]. |
| `Tags.SelectionIdentifiesPath` | traffic_generation/traffic_gen.py:211-221 | With weights summing to 1 or more every pick in (0, 1] selects one path; and if its pair of end points has at most 64 paths in the trial, only that path among them has the byte sent. |
| `LinkCounters.ByteCountDelta` | rest_client/nw_control/stat_monitor.py:39-53 | Per link, the summed growth of its interfaces; interfaces not found exactly once in the next snapshot count as unchanged. |
| `LinkCounters.ComputeLinkUtilizationOverTime` | rest_client/nw_control/stat_monitor.py:10-57 | One map per interval, for every link of the earlier snapshot; rate times 10 seconds times 2^20 is 8 bits for every byte its interfaces sent. |
| `LinkCounters.MeanOf` | rest_client/nw_control/stat_monitor.py:79-80 | The mean over the intervals in which the link appears, in the same units. |
| `LinkCounters.CollectAllLinkKeys` | rest_client/nw_control/stat_monitor.py:67-72 | All links of all intervals. |
| `LinkCounters.ComputeMeanLinkUtilization` | rest_client/nw_control/stat_monitor.py:59-83 | A mean for every link of any interval; times the number of its intervals, 10 seconds and 2^20 it is 8 times its total growth in bytes. |
| `LinkCounters.StepsTelescope` | rest_client/nw_control/stat_monitor.py:38-53 | Counted growth plus growth missed during drop-outs is last minus first reading. |
| `LinkCounters.MeanTelescopes` | rest_client/nw_control/stat_monitor.py:10-83 | For every list of snapshots: the bytes that the mean stands for over its intervals are last-minus-first over both directions, less exactly what was sent during drop-outs, plus exactly what repeated listings of an interface add; with monotone counters listed once they never exceed last-minus-first, and equal it iff nothing was sent during drop-outs. |
| `LinkCounters.GrowthOfMatching` | rest_client/nw_control/stat_monitor.py:40-53 | In one interval an interface adds the difference of its two readings, or that of every copy if it is listed several times. |
| `LinkCounters.RepeatsAddUp` | rest_client/nw_control/stat_monitor.py:40-53 | Snapshots in which a repeated listing puts the reported mean above last-minus-first. |
| `LinkCounters.GapsAreLost` | rest_client/nw_control/stat_monitor.py:44-48 | Snapshots in which a drop-out puts it below. |
| `LinkCounters.MeanWithoutDropouts` | rest_client/nw_control/stat_monitor.py:10-83 | With both directions in every snapshot once, mean times number of intervals times 10 times 2^20 is exactly 8 times last minus first. |
| `MirroringFiles.UndelimitedList` | rest_client/trials/flow_mirroring_trial.py:28-33 | Elements separated by single spaces; fails on the empty list. |
| `MirroringFiles.SerializeFlows` | rest_client/trials/flow_mirroring_trial.py:35-38 | One line per flow in order; fails iff some path is empty. |
| `MirroringFiles.DeserializeFlows` | rest_client/trials/flow_mirroring_trial.py:41-51 | Reads the lines in order, later entries replacing earlier ones in place; fails on malformed lines. |
| `MirroringFiles.FlowsRead` | rest_client/trials/flow_mirroring_trial.py:41-51 | Every file of lines "identifier rate path", whatever the form of its numbers (such as a rate of 0.5 or 3), is read as exactly the flows it describes. |
| `MirroringFiles.FlowsReadIff` | rest_client/trials/flow_mirroring_trial.py:41-51 | Reading fails iff some line describes no flow. |
| `MirroringFiles.ShortRateIsRead` | rest_client/trials/flow_mirroring_trial.py:47 | "1 0.5 2 6 1" is read as flow 1 with half a unit of traffic on the path 2, 6, 1. |
| `MirroringFiles.LastStays` | rest_client/trials/flow_mirroring_trial.py:41-51 | Of several lines with one identifier the last one counts, and every identifier is there once. |
| `MirroringFiles.PutReplaces` | rest_client/trials/flow_mirroring_trial.py:50 | A later line takes the place of the earlier one. |
| `MirroringFiles.FlowsRoundTrip` | rest_client/trials/flow_mirroring_trial.py:26-51 | Parsing gives back the printed dictionary, order included, iff every flow is filed under its own identifier. |
| `MirroringFiles.SerializeSwitches` | rest_client/trials/flow_mirroring_trial.py:79-85 | One line per switch, with or without flows. |
| `MirroringFiles.DeserializeSwitches` | rest_client/trials/flow_mirroring_trial.py:88-97 | Reads them back. |
| `MirroringFiles.SwitchesRead` | rest_client/trials/flow_mirroring_trial.py:88-97 | Every file of switch lines is read as the switches it describes. |
| `MirroringFiles.SwitchesReadIff` | rest_client/trials/flow_mirroring_trial.py:88-97 | Reading fails iff some line describes no switch. |
| `MirroringFiles.SwitchesRoundTrip` | rest_client/trials/flow_mirroring_trial.py:70-97 | The same equivalence for switches, including those without flows. |
| `MirroringFiles.SerializeSolutions` | rest_client/trials/flow_mirroring_trial.py:122-129 | Solution lines and then the last objective value; fails iff there is no solution. |
| `MirroringFiles.DeserializeSolutions` | rest_client/trials/flow_mirroring_trial.py:132-142 | Reads the objective value from the last line and gives it to all solutions. |
| `MirroringFiles.SolutionsRead` | rest_client/trials/flow_mirroring_trial.py:132-142 | Every file of solution lines and a last line with a rate, in any form, is read as the solutions with that objective value. |
| `MirroringFiles.SolutionsReadIff` | rest_client/trials/flow_mirroring_trial.py:132-142 | Reading fails iff the last line is no rate or another line describes no solution. |
| `MirroringFiles.SolutionsRoundTrip` | rest_client/trials/flow_mirroring_trial.py:122-142 | Parsing gives back the printed solutions iff each is filed under its own flow and all have one objective value. |
| `MirroringFiles.SerializePorts` | rest_client/trials/port_mirroring_trial.py:118-132 | One line per port, in switch and port order. |
| `MirroringFiles.DeserializePorts` | rest_client/trials/port_mirroring_trial.py:135-149 | Groups the ports by switch in order of first appearance. |
| `MirroringFiles.PortsRead` | rest_client/trials/port_mirroring_trial.py:135-149 | Every file of port lines is read as the ports it describes, grouped by switch. |
| `MirroringFiles.PortsReadIff` | rest_client/trials/port_mirroring_trial.py:135-149 | Reading fails iff some line describes no port. |
| `MirroringFiles.GroupIsByPorts` | rest_client/trials/port_mirroring_trial.py:137-149 | Every switch with a line is there once, with the ports on its lines in the order of the lines, wherever in the file they are. |
| `MirroringFiles.NonEmptyOf` | rest_client/trials/port_mirroring_trial.py:143 | Empty tokens among the flows are left out wherever they are. |
| `MirroringFiles.PortsRoundTrip` | rest_client/trials/port_mirroring_trial.py:117-149 | Parsing gives back the printed switches, port order included, iff each is filed under its own identifier and has a port. |
| `MirroringFiles.PortFlowsReadBack` | rest_client/trials/port_mirroring_trial.py:35-61 | What a printed file of port-mirroring flows is read as: nothing if a flow has no hops, otherwise every flow with one hop too many. |
| `MirroringFiles.PortFlowsRead` | rest_client/trials/port_mirroring_trial.py:50-61 | Every file of lines "identifier rate node port ... node" is read as the flows it describes, the last node with port 0. |
| `MirroringFiles.PortFlowsDoNotRoundTrip` | rest_client/trials/port_mirroring_trial.py:41-57 | So only the empty dictionary is read back as printed. |
| `Text.IntRoundTrip` | rest_client/trials/flow_mirroring_trial.py:30-32 | Every integer printed by %d is read back by int. |
| `Text.RateRoundTrip` | rest_client/trials/flow_mirroring_trial.py:36 | Every multiple of a millionth printed by %f is read back. |
| `Text.ReadsWhole` | rest_client/trials/flow_mirroring_trial.py:46-47 | Digits without a point are read as their value, with a minus sign as its negative. |
| `Text.ReadsFraction` | rest_client/trials/flow_mirroring_trial.py:47 | Digits, a point and one to six digits are read as the value of all digits over ten to the number of digits after the point. |
| `Text.IntReads` | rest_client/trials/flow_mirroring_trial.py:46 | A text is read as an integer iff it is digits with that value, or a minus sign and digits with the opposite value. |
| `Text.RateReads` | rest_client/trials/flow_mirroring_trial.py:47 | A text is read as a number of millionths iff it denotes it, in whole units or with one to six decimals. |
| `Text.IntText` | rest_client/trials/flow_mirroring_trial.py:30-32 | The printed integer is the only text without superfluous zeros or signs that is read as it. |
| `Text.RateText` | rest_client/trials/flow_mirroring_trial.py:36 | The printed rate is the only text with six decimals, and no superfluous zeros or signs before the point, that is read as it. |
| `Text.SplitJoin` | rest_client/trials/flow_mirroring_trial.py:43 | Splitting at spaces undoes joining by spaces. |
| `Text.LinesRoundTrip` | rest_client/trials/flow_mirroring_trial.py:42 | Splitting into lines undoes writing lines. |
| `Expansion.AddRequest` | rest_client/tuiti/tuiti_trial.py:22-24 | Adds one request's scaled volumes slot by slot, opening slots not used before. |
| `Expansion.PruneFlowAllocationsList` | rest_client/tuiti/tuiti_trial.py:17-27 | Per path and timeslot the scaled sum over all requests. |
| `Expansion.BulkRates` | rest_client/tuiti/tuiti_trial.py:99-103 | Each slot's volume divided over its seconds, in order. |
| `Expansion.BackgroundRates` | rest_client/tuiti/tuiti_trial.py:122-128 | For each second what the remaining capacity leaves of the path rate. |
| `Expansion.VolumePreserved` | rest_client/tuiti/tuiti_trial.py:93-108 | Per path the per-second rates sum to 10000 times the total allocation, for requests of any slot counts. |
| `Expansion.TrialVolumePreserved` | rest_client/tuiti/tuiti_trial.py:93-108 | The same over all paths. |
| `Expansion.FitsIff` | rest_client/tuiti/tuiti_trial.py:93-138 | In every second bulk traffic sends its part of 10000 times the slot's allocation, background traffic what 10000 times the remaining capacity leaves of 6553600 bytes; so together they are within the path rate iff the allocation is at most the remaining capacity. |

## Left out

- Building and solving the Gurobi models: solver internals are not visible; the conservation equations of the multi-commodity model are the predicate `Decomposition.Conserved`.
- networkx `node_disjoint_paths` and numpy sampling are contracts (`MaximumDisjointPaths`, `ChooseDistinct`); seeds and distributions are not modelled. Greedy candidates arrive as an arbitrary stream of flows with at least one path each, since networkx raises an exception for unconnected end points.
- The random node attacker has the general recovery theorem and its hop timing; the one-node-per-path attacker has these and a closed form only where all paths are active with one interior node each. `MatrixModelAttacker` is an unused stub.
- Attackers.Attacker.SelectPlanned: paths of equal length only. On unequal paths the source raises an exception once the hop reaches the end of the shortest path; the runs in which that never happens (such as K >= N, where every selection is at hop 1) are not covered.
- The caches of sorted nodes and interior paths inside attackers and the write-only `_active_paths` of the planned attacker have no effect on results. Attackers use flow 0, as in the source.
- Recovery.RecoversSinceIff: one flow only, since captured shares are grouped by sequence number alone; the closed forms of the single strategies are for attackers that join before the first step.
- Experiment.ConductPathHoppingSimulation: the total attacker's report is computed by the model although the driver does not store it.
- Simulator.Simulation.AddAttacker: an attacker object is added once; the driver never adds one twice.
- Simulator.Simulation.constructor: dictionaries keyed by identifier are given; duplicate identifiers are excluded.
- Attackers.Attacker.Select: one class with a strategy parameter stands for the seven subclasses; where a draw meets a path without an interior the source raises an exception, and the model follows the runs in which none is drawn; for the planned strategy see `SelectPlanned`.
- Decomposition.RatiosSumToOneIff: solutions without entries in (0, 0.001]; with such noise only the lower bound of `RatiosSumToAtLeast` is stated. The same goes for `CycleNotCovered`, `DisjointRoutesSumToOne` and `DisjointSolutionIsExact`.
- Decomposition.CycleNotCovered: without noise, as above.
- Decomposition.DisjointRoutesSumToOne: without noise, as above.
- Decomposition.DisjointSolutionIsExact: without noise, as above.
- ParallelGraph.BuildNParallelGraph: L >= 1; the source indexes the ends of each chain.
- Tags.TagTable.TagRoute: the request to the controller and its failure are not modelled; the counters are changed before it in the source too.
- Text.RateRoundTrip: rates are multiples of a millionth; `int` and `float` accept more spellings (signs, blanks, exponents, more digits) than the model's parsers, and `\n` is the only line break.
- Text.RateReads: with those spellings only, and so `Text.IntReads`.
- Text.IntReads: as above.
- MirroringFiles.FlowsReadIff: a line describes a flow only in those spellings; the same goes for the other files.
- MirroringFiles.SwitchesReadIff: as above.
- MirroringFiles.SolutionsReadIff: as above.
- MirroringFiles.PortsReadIff: as above.
- MirroringFiles.PortFlowsReadBack: printer and parser of port-mirroring flows are functions, without the source's loops.
- Expansion.BulkRates: a timeslot lasts at least one second; the per-path scaling factor is always 1.0 in the source and is left out, as are the other trial parameters.
- Floating-point rounding everywhere: rates, ratios and utilizations are `real`.
- `traverse_graph` (the recursive variant is not called) and `compute_path_hopping_flow_allocations` (it refers to an undefined name).
- REST, SSH, DNS, subprocess, pickle, packet capture, sockets, wall-clock transmission loops, host management, plotting and the Rust generator: input and output only.
- Other allocation schemes of `flow_allocation.py` (k-shortest paths, test allocations, ILP result parsing): thin wrappers around the solver or simpler variants of the loop modelled here.
