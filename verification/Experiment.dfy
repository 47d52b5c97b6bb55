/** The simulation driver: build the parallel graph, create the flow, the simulation and the attackers, run
    for the given number of steps, and reconstruct what the attackers captured. */
module Experiment {
  import opened Basics
  import opened Products
  import opened Transport
  import opened Network
  import opened Attack
  import opened Recovery
  import opened Sweep
  import opened Timing
  import opened Attackers
  import opened Reconstruction
  import opened ParallelGraph
  import opened Simulator

  /** The function finds node-disjoint paths of the parallel graph as networkx's node_disjoint_paths does. */
  ghost predicate Finder(find: (set<Link>, NodeId, NodeId) -> seq<Path>, n: nat, l: nat) {
    var source := Times(n, l);
    var sink := source + 1;
    var edges := LinksOf(Numbered(n, l), n, source, sink);
    MaximumDisjointPaths(edges, source, sink, find(edges, source, sink))
  }

  /** There is one. */
  lemma FinderExists(n: nat, l: nat) returns (find: (set<Link>, NodeId, NodeId) -> seq<Path>)
    requires l >= 1
    ensures Finder(find, n, l)
  {
    hide MaximumDisjointPaths;
    hide LinksOf;
    hide AllDifferent;
    NumberedIsLayout(n, l);
    var paths := MaximumExists(Numbered(n, l), l, Times(n, l), Times(n, l) + 1);
    find := (edges, s, t) => paths;
  }

  /** Disjoint paths make a flow whose shares never meet. */
  lemma FlowOfPaths(edges: set<Link>, s: NodeId, t: NodeId, paths: seq<Path>, k: nat)
    requires DisjointPaths(edges, s, t, paths) && s != t && 1 <= k <= |paths|
    ensures var f := FlowSpec(0, s, t, paths, k); f.Valid() && f.Disjoint()
  {
    var f := FlowSpec(0, s, t, paths, k);
    forall i | 0 <= i < |paths| ensures f.IsRoute(paths[i]) {
      assert Joins(edges, s, t, paths[i]);
    }
  }

  /** create_random_flow, given the disjoint paths: refused when there are fewer than n of them. */
  method CreateFlow(edges: set<Link>, s: NodeId, t: NodeId, paths: seq<Path>, n: nat, k: nat) returns (r: Option<Flow>)
    requires DisjointPaths(edges, s, t, paths) && s != t && 1 <= k <= n
    ensures r.Some? <==> |paths| >= n
    ensures r.Some? ==>
              && fresh(r.value) && r.value.Valid() && r.value.spec == FlowSpec(0, s, t, paths, k)
              && r.value.seqNum == 0 && |r.value.history| == 1 && r.value.delivered == {}
  {
    if |paths| < n {
      return None;
    }
    FlowOfPaths(edges, s, t, paths, k);
    var flow := new Flow(FlowSpec(0, s, t, paths, k));
    r := Some(flow);
  }

  /** One empty node object per node of the graph. */
  method CreateNodes(ids: set<NodeId>) returns (nodes: map<NodeId, Node>)
    ensures nodes.Keys == ids
    ensures forall x :: x in nodes ==> fresh(nodes[x]) && nodes[x].id == x && nodes[x].resident == {}
  {
    nodes := map[];
    var rest := ids;
    while rest != {}
      invariant rest <= ids && nodes.Keys == ids - rest
      invariant forall x :: x in nodes ==> fresh(nodes[x]) && nodes[x].id == x && nodes[x].resident == {}
      decreases rest
    {
      var x :| x in rest;
      var node := new Node(x);
      nodes := nodes[x := node];
      rest := rest - {x};
    }
  }

  /** Creates an attacker on flow 0 and adds it to the simulation. */
  method Join(sim: Simulation, pf: Profile) returns (a: Attacker)
    requires sim.Valid() && 0 in sim.flows
    requires CanAttack(pf, sim.flows[0].spec, sim.nodes.Keys)
    modifies sim`attackers
    ensures fresh(a) && a.profile == pf && a.since == sim.ticks - 1
    ensures sim.Valid() && sim.attackers == old(sim.attackers) + [a]
  {
    hide Flow.Valid;
    hide View.Valid;
    hide Placed;
    hide Received;
    hide CanAttack;
    hide Attacker.Valid;
    hide FlowsInside;
    assert sim.flows[0].Tracked(sim.world[0], sim.arrived[0]);
    a := new Attacker(pf, sim.flows[0].spec, sim.nodes.Keys, sim.world, sim.ticks - 1);
    sim.AddAttacker(a);
  }

  /** Runs the simulation for a number of steps. */
  method Run(sim: Simulation, duration: nat)
    requires sim.Valid()
    modifies sim, sim.nodes.Values, sim.flows.Values, sim.attackers
    ensures sim.Valid() && sim.ticks == old(sim.ticks) + duration && sim.attackers == old(sim.attackers)
  {
    hide Simulation.InPlace;
    hide AttackersValid;
    for i := 0 to duration
      invariant sim.Valid() && sim.ticks == old(sim.ticks) + i && sim.attackers == old(sim.attackers)
    {
      sim.Step();
    }
  }

  /** What an attacker of a finished run reports: in increasing order, the messages that its run of the
      state machine recovers. */
  method Report(sim: Simulation, i: nat) returns (messages: seq<nat>)
    requires sim.Valid() && i < |sim.attackers|
    ensures Increasing(messages)
    ensures var a := sim.attackers[i];
            && a.since + |a.log| == sim.ticks && a.Valid(sim.world, sim.nodes.Keys)
            && IsRunSince(a.profile, sim.world, sim.nodes.Keys, a.since, a.log)
            && forall s :: s in messages <==> Recovers(a.profile.k, a.log[|a.log| - 1].captured, s)
  {
    hide Simulation.InPlace;
    hide Recovers;
    var a := sim.attackers[i];
    messages := Reconstruct(a.captured, a.profile.k);
  }

  /** What the driver stores with the trial. */
  datatype Results = Results(
    randomPath: seq<nat>, randomNode: seq<nat>, ideal: seq<nat>, oneNode: seq<nat>, fixed: seq<nat>,
    planned: seq<nat>, total: seq<nat>)

  /** The trial's parameters are usable: k of the n paths carry shares, chains are not empty. */
  predicate Sensible(n: nat, k: nat, l: nat, period: nat) {
    1 <= k <= n && l >= 1 && period >= 1
  }

  /** Everything the attackers of the experiment need of the flow on the parallel graph. */
  ghost predicate OnParallelPaths(f: FlowSpec, nodes: set<NodeId>, n: nat, k: nat, l: nat) {
    && f.Valid() && f.Disjoint() && f.k == k && |f.paths| == n
    && (forall q :: 0 <= q < n ==> |f.paths[q]| == l + 2)
    && (forall q, a :: 0 <= q < n && 0 <= a < |f.paths[q]| ==> f.paths[q][a] in nodes)
    && k <= |nodes - {f.source, f.sink}|
  }

  lemma AllCanAttack(pf: Profile, f: FlowSpec, nodes: set<NodeId>, n: nat, k: nat, l: nat)
    requires Sensible(n, k, l, pf.period) && OnParallelPaths(f, nodes, n, k, l) && pf.k == k
    ensures CanAttack(pf, f, nodes)
  {
    assert Eligible(f.paths) == Below(n);
  }

  lemma AtLeastOnePerChain(n: nat, l: nat)
    requires l >= 1
    ensures n <= n * l
  {
    assert n * l == n + n * (l - 1);
    assert n * (l - 1) >= 0;
  }

  /** Steps 1 and 2 of the driver: the graph and the flow on its disjoint paths. */
  method BuildFlow(n: nat, k: nat, l: nat, find: (set<Link>, NodeId, NodeId) -> seq<Path>)
      returns (ids: set<NodeId>, flow: Flow)
    requires 1 <= k <= n && l >= 1 && Finder(find, n, l)
    ensures fresh(flow) && flow.Valid() && flow.spec.id == 0 && OnParallelPaths(flow.spec, ids, n, k, l)
    ensures flow.spec.source in ids && flow.seqNum == 0 && |flow.history| == 1 && flow.delivered == {}
  {
    hide LinksOf;
    hide MaximumDisjointPaths;
    hide AllDifferent;
    hide IsPath;
    hide Numbered;
    hide Times;
    var edges, source, sink;
    ghost var chains;
    ids, edges, source, sink, chains := BuildNParallelGraph(n, l);
    var paths := find(edges, source, sink);
    DisjointPathsOfGraph(chains, l, source, sink, paths);
    MaximumIsDisjoint(edges, source, sink, paths);
    var made := CreateFlow(edges, source, sink, paths, n, k);
    flow := made.value;
    FlowOfPaths(edges, source, sink, paths, k);
    AtLeastOnePerChain(n, l);
    CardWithout(ids, source, sink);
    forall q, a | 0 <= q < n && 0 <= a < |paths[q]| ensures paths[q][a] in ids {
      assert paths[q][a] in paths[q];
    }
  }

  lemma MaximumIsDisjoint(edges: set<Link>, s: NodeId, t: NodeId, paths: seq<Path>)
    requires MaximumDisjointPaths(edges, s, t, paths)
    ensures DisjointPaths(edges, s, t, paths)
  {
  }

  lemma CardWithout(ids: set<NodeId>, s: NodeId, t: NodeId)
    requires s in ids && t in ids && s != t
    ensures |ids - {s, t}| == |ids| - 2
  {
    assert ids == (ids - {s, t}) + {s, t};
  }

  /** Step 3 of the driver: a simulation of the flow on the graph. */
  method CreateSimulation(n: nat, k: nat, l: nat, find: (set<Link>, NodeId, NodeId) -> seq<Path>)
      returns (sim: Simulation)
    requires 1 <= k <= n && l >= 1 && Finder(find, n, l)
    ensures fresh(sim) && sim.Valid() && sim.ticks == 1 && sim.attackers == []
    ensures sim.flows.Keys == {0} && OnParallelPaths(sim.flows[0].spec, sim.nodes.Keys, n, k, l)
    ensures fresh(sim.nodes.Values) && fresh(sim.flows.Values)
  {
    hide Simulation.Valid;
    hide Flow.Valid;
    hide FlowSpec.Valid;
    hide FlowSpec.Disjoint;
    hide Finder;
    var ids, flow := BuildFlow(n, k, l, find);
    var nodes := CreateNodes(ids);
    var flows := map[0 := flow];
    assert flows.Keys == {0} && flows.Values == {flow};
    sim := new Simulation(nodes, flows);
  }

  /** The profiles of the experiment's attackers, in the order in which they are added. */
  function Profiles(n: nat, k: nat, period: nat): seq<Profile> {
    [Profile(RandomPath, n, k, period), Profile(RandomNode, n, k, period), Profile(IdealPath, n, k, period),
     Profile(OneNodePerPath, n, k, period), Profile(Fixed, n, k, period), Profile(Planned, n, k, period),
     Profile(Total, n, k, period)]
  }

  /** Step 4 of the driver: adds the attackers. */
  method JoinAll(sim: Simulation, profiles: seq<Profile>)
    requires sim.Valid() && sim.ticks == 1 && 0 in sim.flows && sim.attackers == []
    requires forall i :: 0 <= i < |profiles| ==> CanAttack(profiles[i], sim.flows[0].spec, sim.nodes.Keys)
    modifies sim`attackers
    ensures sim.Valid() && |sim.attackers| == |profiles| && fresh(sim.attackers)
    ensures forall i :: 0 <= i < |profiles| ==> sim.attackers[i].profile == profiles[i] && sim.attackers[i].since == 0
  {
    hide Simulation.Valid;
    hide CanAttack;
    for i := 0 to |profiles|
      invariant sim.Valid() && |sim.attackers| == i && fresh(sim.attackers)
      invariant forall j :: 0 <= j < i ==> sim.attackers[j].profile == profiles[j] && sim.attackers[j].since == 0
    {
      var a := Join(sim, profiles[i]);
    }
  }

  /** After the run the world holds the one flow, all of whose messages have been sent. */
  lemma AfterRun(sim: Simulation, n: nat, k: nat, l: nat)
    requires sim.Valid() && sim.flows.Keys == {0} && OnParallelPaths(sim.flows[0].spec, sim.nodes.Keys, n, k, l)
    ensures ValidWorld(sim.world) && sim.world.Keys == {0} && sim.world[0].Valid()
    ensures sim.world[0].sent == sim.ticks - 1 && OnParallelPaths(sim.world[0].spec, sim.nodes.Keys, n, k, l)
  {
    hide OnParallelPaths;
    hide Placed;
    hide Received;
    hide AttackersValid;
    hide Flow.Valid;
    assert sim.flows[0].Tracked(sim.world[0], sim.arrived[0]);
  }

  /** An attacker's run in the finished experiment. */
  ghost predicate Ended(
      pf: Profile, w: World, nodes: set<NodeId>, log: seq<Watch>, n: nat, k: nat, l: nat, duration: nat) {
    && ValidWorld(w) && w.Keys == {0} && w[0].sent == duration && OnParallelPaths(w[0].spec, nodes, n, k, l)
    && pf.n == n && pf.k == k && pf.period > 0
    && |log| == duration + 1 && IsRun(pf, w, nodes, log)
  }

  lemma PlannedOutcome(
      pf: Profile, w: World, nodes: set<NodeId>, log: seq<Watch>, n: nat, k: nat, l: nat, duration: nat, s: nat)
    requires Ended(pf, w, nodes, log, n, k, l, duration) && pf.strategy.Planned? && 1 <= k <= n && l >= 1
    ensures Recovers(k, log[duration].captured, s) <==> s < duration && SweptUp(pf, w[0], log, l + 2, duration, s)
  {
    hide IsRun;
    hide Recovers;
    hide SweptUp;
    PlannedRecovers(pf, w, nodes, l + 2, log, duration, s);
  }

  lemma FullSweepOutcome(
      pf: Profile, w: World, nodes: set<NodeId>, log: seq<Watch>, n: nat, k: nat, l: nat, duration: nat, s: nat)
    requires Ended(pf, w, nodes, log, n, k, l, duration) && pf.strategy.Planned? && 1 <= k <= n
    requires LongEnough(n, k, pf.period, l) && s + (Rounds(n, k) - 1) * pf.period + 1 <= duration
    ensures var c := SweepLength(n, k, pf.period); Recovers(k, log[duration].captured, s) <==> s % c < pf.period
  {
    hide IsRun;
    hide Recovers;
    RoundsBounds(n, k);
    SweepRecovers(pf, w, nodes, l + 2, Rounds(n, k), log, duration, s);
  }

  /** The steps of a sweep that looks at all paths. */
  function SweepLength(n: nat, k: nat, period: nat): (c: nat)
    requires 1 <= k <= n && period > 0
    ensures c > 0
  {
    CycleAtLeast(Rounds(n, k), period);
    Rounds(n, k) * period
  }

  lemma SlowSweepOutcome(
      pf: Profile, w: World, nodes: set<NodeId>, log: seq<Watch>, n: nat, k: nat, l: nat, duration: nat, s: nat)
    requires Ended(pf, w, nodes, log, n, k, l, duration) && pf.strategy.Planned? && 1 <= l < pf.period
    ensures Recovers(k, log[duration].captured, s) <==> s < duration && log[s].monitored == FirstHops(w[0], s)
  {
    hide IsRun;
    hide Recovers;
    SlowSweepRecovers(pf, w, nodes, l + 2, log, duration, s);
  }

  lemma TotalOutcome(
      pf: Profile, w: World, nodes: set<NodeId>, log: seq<Watch>, n: nat, k: nat, l: nat, duration: nat, s: nat)
    requires Ended(pf, w, nodes, log, n, k, l, duration) && pf.strategy.Total? && l >= 1
    ensures Recovers(k, log[duration].captured, s) <==> s < duration
  {
    RecoversIff(pf, w, nodes, log, duration, s);
    if s < duration {
      TotalRecovers(pf, w, nodes, log, duration, s);
    }
  }

  lemma RandomPathOutcome(
      pf: Profile, w: World, nodes: set<NodeId>, log: seq<Watch>, n: nat, k: nat, l: nat, duration: nat, s: nat)
    requires Ended(pf, w, nodes, log, n, k, l, duration) && pf.strategy.RandomPath?
    ensures Recovers(k, log[duration].captured, s) <==> s < duration && log[s].monitored == FirstHops(w[0], s)
  {
    RecoversIff(pf, w, nodes, log, duration, s);
    if s < duration {
      RandomPathRecovers(pf, w, nodes, log, duration, s);
    }
  }

  lemma IdealOutcome(
      pf: Profile, w: World, nodes: set<NodeId>, log: seq<Watch>, n: nat, k: nat, l: nat, duration: nat, s: nat)
    requires Ended(pf, w, nodes, log, n, k, l, duration) && pf.strategy.IdealPath?
    ensures Recovers(k, log[duration].captured, s) <==>
            s < duration && forall j :: 0 <= j < k ==> SampledInTransit(w[0], log, duration, s, j)
  {
    RecoversIff(pf, w, nodes, log, duration, s);
    if s < duration {
      IdealRecovers(pf, w, nodes, log, duration, s);
    }
  }

  /** The fixed attacker's report, given its paths c and its hop on each. */
  ghost predicate FixedOn(report: seq<nat>, v: View, k: nat, duration: nat, c: seq<nat>, hops: seq<nat>)
    requires v.Valid() && v.sent == duration && v.spec.k == k
  {
    && IsChoice(c, |v.spec.paths|, k) && |hops| == k
    && (forall i :: 0 <= i < k ==> 0 < hops[i] < |v.spec.paths[c[i]]| - 1)
    && forall s: nat :: s in report <==>
         s < duration && Members(v.history[s]) == Members(c) && forall i :: 0 <= i < k ==> s + hops[i] <= duration
  }

  lemma FixedOutcome(
      pf: Profile, w: World, nodes: set<NodeId>, log: seq<Watch>, n: nat, k: nat, l: nat, duration: nat,
      report: seq<nat>)
      returns (c: seq<nat>, hops: seq<nat>)
    requires Ended(pf, w, nodes, log, n, k, l, duration) && pf.strategy.Fixed?
    requires forall s: nat :: s in report <==> Recovers(k, log[duration].captured, s)
    ensures FixedOn(report, w[0], k, duration, c, hops)
  {
    hide Recovers;
    var f := w[0].spec;
    assert SampledOnePerPath(f.paths, k, log[0].monitored);
    c, hops :| IsChoice(c, |f.paths|, k) && OnePerPath(f.paths, c, hops, log[0].monitored);
    forall s: nat ensures s in report <==>
         s < duration && Members(w[0].history[s]) == Members(c) && forall i :: 0 <= i < k ==> s + hops[i] <= duration {
      RecoversIff(pf, w, nodes, log, duration, s);
      if s < duration {
        FixedRecovers(pf, w, nodes, log, duration, s, c, hops);
      }
    }
  }

  /** A report lists, in increasing order, what a run of that many steps recovers. */
  ghost predicate Reported(report: seq<nat>, k: nat, log: seq<Watch>, duration: nat) {
    && |log| == duration + 1 && Increasing(report)
    && forall s: nat :: s in report <==> Recovers(k, log[duration].captured, s)
  }

  /** A report and the run it comes from, of the named strategy. */
  ghost predicate Conducted(
      s: Strategy, report: seq<nat>, w: World, nodes: set<NodeId>, log: seq<Watch>, n: nat, k: nat, l: nat, period: nat,
      duration: nat)
  {
    Ended(Profile(s, n, k, period), w, nodes, log, n, k, l, duration) && Reported(report, k, log, duration)
  }

  /** Every report comes from a run of its own strategy on the same flow. */
  ghost predicate AllReported(
      results: Results, w: World, nodes: set<NodeId>, logs: seq<seq<Watch>>, n: nat, k: nat, l: nat, period: nat,
      duration: nat)
  {
    && |logs| == 7
    && Conducted(RandomPath, results.randomPath, w, nodes, logs[0], n, k, l, period, duration)
    && Conducted(RandomNode, results.randomNode, w, nodes, logs[1], n, k, l, period, duration)
    && Conducted(IdealPath, results.ideal, w, nodes, logs[2], n, k, l, period, duration)
    && Conducted(OneNodePerPath, results.oneNode, w, nodes, logs[3], n, k, l, period, duration)
    && Conducted(Fixed, results.fixed, w, nodes, logs[4], n, k, l, period, duration)
    && Conducted(Planned, results.planned, w, nodes, logs[5], n, k, l, period, duration)
    && Conducted(Total, results.total, w, nodes, logs[6], n, k, l, period, duration)
  }

  /** The planned attacker's report.  In general: the messages of the first `period` steps of each sweep whose
      paths the sweep drew in time.  If the chains are long enough for a sweep to look at all paths, these are all
      messages of those steps; if they are not, every sweep misses a path and all messages on it.  If the hop period
      is longer than the chains, the messages are those whose first hops were watched in the step that sent them. */
  ghost predicate PlannedReport(
      report: seq<nat>, v: View, log: seq<Watch>, n: nat, k: nat, l: nat, period: nat, duration: nat)
    requires 1 <= k <= n && l >= 1 && period >= 1 && v.Valid() && v.sent == duration && v.spec.k == k
    requires |log| == duration + 1
  {
    var pf, r, c := Profile(Planned, n, k, period), Rounds(n, k), SweepLength(n, k, period);
    var cycle := Cycle(pf, l + 2);
    && (forall s: nat :: s in report <==> s < duration && SweptUp(pf, v, log, l + 2, duration, s))
    && (LongEnough(n, k, period, l) ==>
          forall s: nat :: s + (r - 1) * period + 1 <= duration ==> (s in report <==> s % c < period))
    && (!LongEnough(n, k, period, l) ==> forall m: nat :: MissesPath(report, v, cycle, m))
    && (l < period ==> forall s: nat :: s in report <==> s < duration && log[s].monitored == FirstHops(v, s))
  }

  /** Sweep m misses a path: no message of the sweep that travels on it is reported. */
  ghost predicate MissesPath(report: seq<nat>, v: View, cycle: nat, m: nat)
    requires v.Valid() && cycle > 0
  {
    exists q: nat :: q < |v.spec.paths| && Avoids(report, v, cycle, m, q)
  }

  ghost predicate Avoids(report: seq<nat>, v: View, cycle: nat, m: nat, q: nat)
    requires v.Valid() && cycle > 0
  {
    forall s: nat :: s < v.sent && s / cycle == m && q in v.history[s] ==> s !in report
  }

  lemma ShortSweepOutcome(
      pf: Profile, w: World, nodes: set<NodeId>, log: seq<Watch>, n: nat, k: nat, l: nat, duration: nat,
      report: seq<nat>, m: nat)
    requires Ended(pf, w, nodes, log, n, k, l, duration) && pf.strategy.Planned? && 1 <= k <= n && l >= 1
    requires !LongEnough(n, k, pf.period, l) && Reported(report, k, log, duration)
    ensures MissesPath(report, w[0], Cycle(pf, l + 2), m)
  {
    hide IsRun;
    hide Recovers;
    hide Cycle;
    var q := ShortSweepMisses(pf, w, nodes, l + 2, log, m);
    assert Avoids(report, w[0], Cycle(pf, l + 2), m, q);
  }

  /** The trial that the program conducts: 10 * i paths of five nodes, half of them active, hop period 10.  They are not
      long enough. */
  lemma ConductedTrialIsShort(i: nat)
    requires i >= 1
    ensures !LongEnough(10 * i, 5 * i, 10, 5)
  {
    RoundsBounds(10 * i, 5 * i);
  }

  /** The random path attacker's report: the messages whose first hops it watched in the step that sent them, which it
      sampled in the last multiple of the hop period.  If all paths are active these are all messages sent after its
      first selection. */
  ghost predicate RandomPathReport(
      report: seq<nat>, v: View, log: seq<Watch>, n: nat, k: nat, period: nat, duration: nat)
    requires v.Valid() && v.sent == duration && |log| == duration + 1 && period >= 1
  {
    && (forall s: nat :: s in report <==> s < duration && log[s].monitored == FirstHops(v, s))
    && (forall s: nat :: s in report <==>
          && s < duration && (period == 1 || s >= period)
          && log[RoundDown(s, period)].monitored == FirstHops(v, s))
    && (k == n ==> forall s: nat :: s in report <==> s < duration && (period == 1 || s >= period))
  }

  /** The random node attacker's report: the messages each of whose shares it caught, none of which had left the
      interior before the first selection. */
  ghost predicate RandomNodeReport(
      report: seq<nat>, v: View, log: seq<Watch>, k: nat, l: nat, period: nat, duration: nat)
    requires v.Valid() && v.sent == duration && v.spec.k == k
  {
    && (forall s: nat :: s in report <==> s < duration && forall j :: 0 <= j < k ==> Caught(v, log, duration, s, j))
    && (forall s: nat :: s in report ==> period == 1 || (period < duration && period < s + l))
  }

  /** The ideal attacker's report: the messages whose paths it sampled in transit.  If all paths are active these are
      all messages that were still inside when it first selected. */
  ghost predicate IdealReport(
      report: seq<nat>, v: View, log: seq<Watch>, n: nat, k: nat, l: nat, period: nat, duration: nat)
    requires v.Valid() && v.sent == duration && v.spec.k == k && |log| == duration + 1
  {
    && (forall s: nat :: s in report <==>
          s < duration && forall j :: 0 <= j < k ==> SampledInTransit(v, log, duration, s, j))
    && (k == n ==> forall s: nat :: s in report <==>
          s < duration && (period == 1 || s >= period || (period < duration && period < s + l)))
  }

  /** The one-node-per-path attacker's report: the messages each of whose shares it caught.  If all paths are active,
      with one interior node each, these are all messages sent after its first selection. */
  ghost predicate OneNodeReport(
      report: seq<nat>, v: View, log: seq<Watch>, n: nat, k: nat, l: nat, period: nat, duration: nat)
    requires v.Valid() && v.sent == duration && v.spec.k == k
  {
    && (forall s: nat :: s in report <==> s < duration && forall j :: 0 <= j < k ==> Caught(v, log, duration, s, j))
    && (k == n && l == 1 ==> forall s: nat :: s in report <==> s < duration && SelectedBy(period, s))
  }

  /** What that makes the reports; v is the flow's view. */
  ghost predicate Explained(
      results: Results, v: View, logs: seq<seq<Watch>>, n: nat, k: nat, l: nat, period: nat, duration: nat)
    requires Sensible(n, k, l, period)
  {
    && v.Valid() && v.sent == duration && v.spec.k == k
    && |logs| == 7 && (forall i :: 0 <= i < 7 ==> |logs[i]| == duration + 1)
    && (forall s: nat :: s in results.total <==> s < duration)
    && RandomPathReport(results.randomPath, v, logs[0], n, k, period, duration)
    && RandomNodeReport(results.randomNode, v, logs[1], k, l, period, duration)
    && IdealReport(results.ideal, v, logs[2], n, k, l, period, duration)
    && OneNodeReport(results.oneNode, v, logs[3], n, k, l, period, duration)
    && (exists c, hops :: FixedOn(results.fixed, v, k, duration, c, hops))
    && PlannedReport(results.planned, v, logs[5], n, k, l, period, duration)
  }

  /** The whole experiment, for every choice of parameters, every duration and every outcome of the sampling.
      Each report is what a run of the attacker's strategy recovers.  The total attacker recovers all messages;
      the random path attacker those whose first hops it watched in the step that sent them; the ideal attacker
      those whose paths it sampled in transit; the fixed attacker those that travel on its own paths and have
      reached its hops; the random node and one-node-per-path attackers those each of whose shares they caught;
      and the planned attacker those that `PlannedReport` says. */
  method ConductPathHoppingSimulation(
      n: nat, k: nat, l: nat, period: nat, duration: nat, find: (set<Link>, NodeId, NodeId) -> seq<Path>)
      returns (results: Results, ghost w: World, ghost nodes: set<NodeId>, ghost logs: seq<seq<Watch>>)
    requires Sensible(n, k, l, period) && Finder(find, n, l)
    ensures AllReported(results, w, nodes, logs, n, k, l, period, duration)
    ensures 0 in w && Explained(results, w[0], logs, n, k, l, period, duration)
  {
    hide Attacker.Valid;
    hide Simulation.Valid;
    hide CanAttack;
    hide OnParallelPaths;
    hide Finder;
    hide AllReported;
    hide Explained;
    var sim := CreateSimulation(n, k, l, find);
    var profiles := Profiles(n, k, period);
    forall i | 0 <= i < |profiles| ensures CanAttack(profiles[i], sim.flows[0].spec, sim.nodes.Keys) {
      AllCanAttack(profiles[i], sim.flows[0].spec, sim.nodes.Keys, n, k, l);
    }
    JoinAll(sim, profiles);
    Run(sim, duration);
    results, logs := ReportAll(sim, n, k, l, period, duration);
    w, nodes := sim.world, sim.nodes.Keys;
    Explain(results, w, nodes, logs, n, k, l, period, duration);
  }

  lemma ExplainPlanned(
      report: seq<nat>, w: World, nodes: set<NodeId>, log: seq<Watch>, n: nat, k: nat, l: nat, period: nat,
      duration: nat)
    requires Sensible(n, k, l, period)
    requires Conducted(Planned, report, w, nodes, log, n, k, l, period, duration)
    ensures PlannedReport(report, w[0], log, n, k, l, period, duration)
  {
    hide IsRun;
    hide Recovers;
    hide SweptUp;
    hide SweepLength;
    hide Rounds;
    hide LongEnough;
    hide MissesPath;
    hide Cycle;
    var pf, r := Profile(Planned, n, k, period), Rounds(n, k);
    forall s: nat ensures s in report <==> s < duration && SweptUp(pf, w[0], log, l + 2, duration, s) {
      PlannedOutcome(pf, w, nodes, log, n, k, l, duration, s);
    }
    if LongEnough(n, k, period, l) {
      forall s: nat | s + (r - 1) * period + 1 <= duration
        ensures s in report <==> s % SweepLength(n, k, period) < period
      {
        FullSweepOutcome(pf, w, nodes, log, n, k, l, duration, s);
      }
    }
    if !LongEnough(n, k, period, l) {
      var cycle := Cycle(pf, l + 2);
      forall m: nat ensures MissesPath(report, w[0], cycle, m) {
        ShortSweepOutcome(pf, w, nodes, log, n, k, l, duration, report, m);
      }
    }
    if l < period {
      forall s: nat ensures s in report <==> s < duration && log[s].monitored == FirstHops(w[0], s) {
        SlowSweepOutcome(pf, w, nodes, log, n, k, l, duration, s);
      }
    }
  }

  /** Step 5 of the driver: what all attackers recovered. */
  method ReportAll(sim: Simulation, n: nat, k: nat, l: nat, period: nat, duration: nat)
      returns (results: Results, ghost logs: seq<seq<Watch>>)
    requires Sensible(n, k, l, period)
    requires |sim.attackers| == 7
    requires forall i :: 0 <= i < 7 ==> sim.attackers[i].since == 0
    requires sim.attackers[0].profile == Profile(RandomPath, n, k, period)
          && sim.attackers[1].profile == Profile(RandomNode, n, k, period)
          && sim.attackers[2].profile == Profile(IdealPath, n, k, period)
          && sim.attackers[3].profile == Profile(OneNodePerPath, n, k, period)
          && sim.attackers[4].profile == Profile(Fixed, n, k, period)
          && sim.attackers[5].profile == Profile(Planned, n, k, period)
          && sim.attackers[6].profile == Profile(Total, n, k, period)
    requires sim.Valid() && sim.ticks == duration + 1
    requires sim.flows.Keys == {0} && OnParallelPaths(sim.flows[0].spec, sim.nodes.Keys, n, k, l)
    ensures AllReported(results, sim.world, sim.nodes.Keys, logs, n, k, l, period, duration)
  {
    hide Simulation.Valid;
    hide OnParallelPaths;
    hide Ended;
    hide Reported;
    ghost var l0, l1, l2, l3, l4, l5, l6;
    var p0, p1, p2, p3, p4, p5, p6;
    p0, l0 := ReportOf(sim, 0, n, k, l, period, duration);
    p1, l1 := ReportOf(sim, 1, n, k, l, period, duration);
    p2, l2 := ReportOf(sim, 2, n, k, l, period, duration);
    p3, l3 := ReportOf(sim, 3, n, k, l, period, duration);
    p4, l4 := ReportOf(sim, 4, n, k, l, period, duration);
    p5, l5 := ReportOf(sim, 5, n, k, l, period, duration);
    p6, l6 := ReportOf(sim, 6, n, k, l, period, duration);
    results := Results(p0, p1, p2, p3, p4, p5, p6);
    logs := [l0, l1, l2, l3, l4, l5, l6];
  }

  lemma ExplainRandomPath(
      report: seq<nat>, w: World, nodes: set<NodeId>, log: seq<Watch>, n: nat, k: nat, l: nat, period: nat,
      duration: nat)
    requires Sensible(n, k, l, period) && Conducted(RandomPath, report, w, nodes, log, n, k, l, period, duration)
    ensures RandomPathReport(report, w[0], log, n, k, period, duration)
  {
    hide IsRun;
    hide Recovers;
    hide FirstHops;
    var pf := Profile(RandomPath, n, k, period);
    forall s: nat ensures s in report <==> s < duration && log[s].monitored == FirstHops(w[0], s) {
      RandomPathOutcome(pf, w, nodes, log, n, k, l, duration, s);
    }
    forall s: nat
      ensures s in report <==>
              && s < duration && (period == 1 || s >= period)
              && log[RoundDown(s, period)].monitored == FirstHops(w[0], s)
      ensures k == n ==> (s in report <==> s < duration && (period == 1 || s >= period))
    {
      RecoversIff(pf, w, nodes, log, duration, s);
      if s < duration {
        RandomPathBySample(pf, w, nodes, log, duration, s);
        if k == n {
          RandomPathOnAll(pf, w, nodes, log, duration, s);
        }
      }
    }
  }

  lemma ExplainRandomNode(
      report: seq<nat>, w: World, nodes: set<NodeId>, log: seq<Watch>, n: nat, k: nat, l: nat, period: nat,
      duration: nat)
    requires Sensible(n, k, l, period) && Conducted(RandomNode, report, w, nodes, log, n, k, l, period, duration)
    ensures RandomNodeReport(report, w[0], log, k, l, period, duration)
  {
    hide IsRun;
    hide Recovers;
    hide Caught;
    var pf := Profile(RandomNode, n, k, period);
    forall s: nat
      ensures s in report <==> s < duration && forall j :: 0 <= j < k ==> Caught(w[0], log, duration, s, j)
      ensures s in report ==> period == 1 || (period < duration && period < s + l)
    {
      RecoversIff(pf, w, nodes, log, duration, s);
      if s in report {
        NothingBefore(pf, w, nodes, l, log, duration, s);
      }
    }
  }

  lemma ExplainIdeal(
      report: seq<nat>, w: World, nodes: set<NodeId>, log: seq<Watch>, n: nat, k: nat, l: nat, period: nat,
      duration: nat)
    requires Sensible(n, k, l, period) && Conducted(IdealPath, report, w, nodes, log, n, k, l, period, duration)
    ensures IdealReport(report, w[0], log, n, k, l, period, duration)
  {
    hide IsRun;
    hide Recovers;
    hide SampledInTransit;
    var pf := Profile(IdealPath, n, k, period);
    forall s: nat
      ensures s in report <==>
              s < duration && forall j :: 0 <= j < k ==> SampledInTransit(w[0], log, duration, s, j)
      ensures k == n ==> (s in report <==>
              s < duration && (period == 1 || s >= period || (period < duration && period < s + l)))
    {
      IdealOutcome(pf, w, nodes, log, n, k, l, duration, s);
      if k == n && s < duration {
        IdealOnAll(pf, w, nodes, l, log, duration, s);
      }
    }
  }

  lemma ExplainOneNode(
      report: seq<nat>, w: World, nodes: set<NodeId>, log: seq<Watch>, n: nat, k: nat, l: nat, period: nat,
      duration: nat)
    requires Sensible(n, k, l, period) && Conducted(OneNodePerPath, report, w, nodes, log, n, k, l, period, duration)
    ensures OneNodeReport(report, w[0], log, n, k, l, period, duration)
  {
    hide IsRun;
    hide Recovers;
    hide Caught;
    hide SelectedBy;
    var pf := Profile(OneNodePerPath, n, k, period);
    forall s: nat
      ensures s in report <==> s < duration && forall j :: 0 <= j < k ==> Caught(w[0], log, duration, s, j)
      ensures k == n && l == 1 ==> (s in report <==> s < duration && SelectedBy(period, s))
    {
      RecoversIff(pf, w, nodes, log, duration, s);
      if k == n && l == 1 && s < duration {
        OneNodeOnAll(pf, w, nodes, log, duration, s);
      }
    }
  }

  lemma Explain(
      results: Results, w: World, nodes: set<NodeId>, logs: seq<seq<Watch>>, n: nat, k: nat, l: nat, period: nat,
      duration: nat)
    requires Sensible(n, k, l, period) && AllReported(results, w, nodes, logs, n, k, l, period, duration)
    ensures 0 in w && Explained(results, w[0], logs, n, k, l, period, duration)
  {
    hide IsRun;
    hide Recovers;
    hide RandomPathReport;
    hide RandomNodeReport;
    hide IdealReport;
    hide OneNodeReport;
    hide PlannedReport;
    ExplainRandomPath(results.randomPath, w, nodes, logs[0], n, k, l, period, duration);
    ExplainRandomNode(results.randomNode, w, nodes, logs[1], n, k, l, period, duration);
    ExplainIdeal(results.ideal, w, nodes, logs[2], n, k, l, period, duration);
    ExplainOneNode(results.oneNode, w, nodes, logs[3], n, k, l, period, duration);
    ExplainPlanned(results.planned, w, nodes, logs[5], n, k, l, period, duration);
    var c, hops := FixedOutcome(Profile(Fixed, n, k, period), w, nodes, logs[4], n, k, l, duration, results.fixed);
    forall s: nat ensures s in results.total <==> s < duration {
      TotalOutcome(Profile(Total, n, k, period), w, nodes, logs[6], n, k, l, duration, s);
    }
  }

  /** The report of attacker i, and its run. */
  method ReportOf(sim: Simulation, i: nat, ghost n: nat, k: nat, ghost l: nat, ghost period: nat, ghost duration: nat)
      returns (messages: seq<nat>, ghost log: seq<Watch>)
    requires sim.Valid() && sim.ticks == duration + 1 && period > 0
    requires i < |sim.attackers| && sim.attackers[i].since == 0
    requires sim.flows.Keys == {0} && OnParallelPaths(sim.flows[0].spec, sim.nodes.Keys, n, k, l)
    requires sim.attackers[i].profile == Profile(sim.attackers[i].profile.strategy, n, k, period)
    ensures Ended(sim.attackers[i].profile, sim.world, sim.nodes.Keys, log, n, k, l, duration)
    ensures Reported(messages, k, log, duration)
  {
    hide Simulation.Valid;
    hide OnParallelPaths;
    hide IsRunSince;
    hide Attacker.Valid;
    hide Recovers;
    hide Increasing;
    hide View.Valid;
    AfterRun(sim, n, k, l);
    messages := Report(sim, i);
    log := sim.attackers[i].log;
  }
}
