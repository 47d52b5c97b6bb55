/** The attackers as a state machine over values.  A `Watch` is what an attacker remembers;
    `Selects` is one call that re-selects the monitored nodes, `WatchStep` one simulation step, and
    `IsRun` a whole run.  Sampling is existential, so a run is any run that numpy could produce. */
module Attack {
  import opened Basics
  import opened Transport

  datatype Strategy = RandomNode | RandomPath | IdealPath | OneNodePerPath | Fixed | Planned | Total

  /** An attacker's constant parameters: its strategy, the N and K it believes in, its hop period. */
  datatype Profile = Profile(strategy: Strategy, n: nat, k: nat, period: nat)

  datatype Watch = Watch(
    monitored: set<NodeId>,
    captured: set<Share>,
    hopCount: nat,
    prepared: bool,           // the strategy has built its collection of targets
    hopIndex: nat,            // planned attacker: next hop to look at
    monitoredPaths: set<nat>  // planned attacker: paths looked at in this sweep
  )

  const START := Watch({}, {}, 0, false, 1, {})

  // ----- selecting nodes -----

  /** A sample of the first hops of the paths that have an interior. */
  ghost predicate SampledFirstHops(paths: seq<Path>, k: nat, m: set<NodeId>) {
    exists c :: IsChoice(c, |paths|, k) && FirstHopsOf(paths, c, m)
  }

  ghost predicate FirstHopsOf(paths: seq<Path>, c: seq<nat>, m: set<NodeId>) {
    && (forall i :: 0 <= i < |c| ==> c[i] < |paths| && |paths[c[i]]| > 2)
    && m == set i | 0 <= i < |c| :: paths[c[i]][1]
  }

  /** All interior nodes of a sample of the paths. */
  ghost predicate SampledInteriors(paths: seq<Path>, k: nat, m: set<NodeId>) {
    exists c :: IsChoice(c, |paths|, k) && InteriorsOf(paths, c, m)
  }

  ghost predicate InteriorsOf(paths: seq<Path>, c: seq<nat>, m: set<NodeId>) {
    && (forall i :: 0 <= i < |c| ==> c[i] < |paths|)
    && m == set i, a | 0 <= i < |c| && 0 < a < |paths[c[i]]| - 1 :: paths[c[i]][a]
  }

  /** One interior node on each path of a sample. */
  ghost predicate SampledOnePerPath(paths: seq<Path>, k: nat, m: set<NodeId>) {
    exists c, hops :: IsChoice(c, |paths|, k) && OnePerPath(paths, c, hops, m)
  }

  ghost predicate OnePerPath(paths: seq<Path>, c: seq<nat>, hops: seq<nat>, m: set<NodeId>) {
    && |hops| == |c|
    && (forall i :: 0 <= i < |c| ==> c[i] < |paths| && 0 < hops[i] < |paths[c[i]]| - 1)
    && m == set i | 0 <= i < |c| :: paths[c[i]][hops[i]]
  }

  /** h is at least the length of the longest path. */
  predicate PastAllPaths(paths: seq<Path>, h: nat) {
    forall i :: 0 <= i < |paths| ==> |paths[i]| <= h
  }

  predicate HopInRange(paths: seq<Path>, h: nat) {
    forall i :: 0 <= i < |paths| ==> h < |paths[i]|
  }

  function NodesAtHop(paths: seq<Path>, h: nat, idx: set<nat>): set<NodeId>
    requires HopInRange(paths, h)
  {
    set q | q in idx && q < |paths| :: paths[q][h]
  }

  /** The nodes at hop h, without those that are at hop h of a seen path. */
  function Candidates(paths: seq<Path>, h: nat, seen: set<nat>): set<NodeId>
    requires HopInRange(paths, h)
  {
    set q | q in Below(|paths|) && paths[q][h] !in NodesAtHop(paths, h, seen) :: paths[q][h]
  }

  /** The planned attacker watches up to k candidates. */
  ghost predicate PlannedPicks(k: nat, paths: seq<Path>, h: nat, seen: set<nat>, a: Watch, b: Watch)
  {
    && HopInRange(paths, h)
    && b == a.(monitored := b.monitored, hopIndex := h + 1, monitoredPaths := seen)
    && b.monitored <= Candidates(paths, h, seen)
    && |b.monitored| == if |Candidates(paths, h, seen)| <= k then |Candidates(paths, h, seen)| else k
  }

  /** A sweep ends when the hop index leaves the paths or all N paths have been looked at; the
      next sweep starts at hop 1 with no path seen. */
  predicate SweepEnds(pf: Profile, paths: seq<Path>, a: Watch) {
    PastAllPaths(paths, a.hopIndex) || |a.monitoredPaths| == pf.n
  }

  /** What the planned attacker does when a selection is due, and when it is not. */
  ghost predicate PlannedSelects(pf: Profile, paths: seq<Path>, due: bool, a: Watch, b: Watch)
  {
    if !due then b == a.(hopIndex := a.hopIndex + 1)
    else if SweepEnds(pf, paths, a) then PlannedPicks(pf.k, paths, 1, {}, a, b)
    else PlannedPicks(pf.k, paths, a.hopIndex, a.monitoredPaths, a, b)
  }

  /** The bitwise and of two numbers.  The one-node-per-path attacker tests it where the other hopping
      attackers test the remainder. */
  function BitAnd(a: nat, b: nat): nat {
    if a == 0 || b == 0 then 0
    else 2 * BitAnd(a / 2, b / 2) + if a % 2 == 1 && b % 2 == 1 then 1 else 0
  }

  /** One call of select_monitored_nodes, by strategy. */
  ghost predicate Selects(pf: Profile, target: FlowSpec, nodes: set<NodeId>, time: nat, a: Watch, b: Watch)
    requires pf.period > 0
  {
    var hopped := a.(monitored := b.monitored, hopCount := a.hopCount + 1, prepared := true);
    match pf.strategy
    case RandomNode =>
      if time % pf.period == 0
      then b == hopped && b.monitored <= nodes - {target.source, target.sink} && |b.monitored| == pf.k
      else b == a.(prepared := true)
    case RandomPath =>
      if time % pf.period == 0
      then b == hopped && SampledFirstHops(target.paths, pf.k, b.monitored)
      else b == a.(prepared := true)
    case IdealPath =>
      if time % pf.period == 0
      then b == hopped && SampledInteriors(target.paths, pf.k, b.monitored)
      else b == a.(prepared := true)
    case OneNodePerPath =>
      if BitAnd(time, pf.period) == 0
      then b == hopped && SampledOnePerPath(target.paths, pf.k, b.monitored)
      else b == a.(prepared := true)
    case Fixed =>
      if !a.prepared
      then b == hopped.(hopCount := 1) && SampledOnePerPath(target.paths, pf.k, b.monitored)
      else b == a
    case Planned =>
      PlannedSelects(pf, target.paths, time % pf.period == 0, a, b)
    case Total =>
      && HopInRange(target.paths, 1)
      && var firsts := NodesAtHop(target.paths, 1, Below(|target.paths|));
      b == a.(monitored := if a.monitored == {} then firsts else a.monitored)
  }

  // ----- monitoring -----

  /** After t moves the share sits on a watched node that is neither its source nor its sink. */
  ghost predicate Exposed(w: World, t: nat, sh: Share, watched: set<NodeId>)
    requires ValidWorld(w)
  {
    && sh.flowId in w
    && var v := w[sh.flowId];
    && v.InNetwork(t, sh)
    && v.NodeAt(t, sh) in watched
    && v.NodeAt(t, sh) != v.spec.source && v.NodeAt(t, sh) != v.spec.sink
  }

  /** The first path that contains x, or |paths| when none does. */
  function FirstHolder(paths: seq<Path>, x: NodeId): (q: nat)
    ensures q <= |paths|
    ensures q < |paths| ==> x in paths[q]
    ensures forall i :: 0 <= i < q ==> x !in paths[i]
  {
    if paths == [] || x in paths[0] then 0
    else
      var q := 1 + FirstHolder(paths[1..], x);
      assert forall i :: 1 <= i < q ==> paths[i] == paths[1..][i - 1];
      q
  }

  /** What capturing notes besides shares: the planned attacker marks the paths it looked at. */
  function Noted(pf: Profile, paths: seq<Path>, a: Watch): Watch {
    if pf.strategy.Planned?
    then a.(monitoredPaths := a.monitoredPaths + set x | x in a.monitored :: FirstHolder(paths, x))
    else a
  }

  ghost predicate WatchStep(pf: Profile, w: World, nodes: set<NodeId>, t: nat, a: Watch, b: Watch)
    requires ValidWorld(w) && 0 in w && pf.period > 0
  {
    && (forall sh :: sh in b.captured <==> sh in a.captured || Exposed(w, t, sh, a.monitored))
    && Selects(pf, w[0].spec, nodes, t, Noted(pf, w[0].spec.paths, a).(captured := b.captured), b)
  }

  /** The time passed to the selection made on creation. */
  function CreationTime(s: Strategy): nat {
    if s.Planned? then 0 else 1
  }

  /** The run of an attacker that joins after `since` steps: log[i] is its state i steps later, and
      log[i].monitored is what it watches in the next step. */
  ghost predicate IsRunSince(pf: Profile, w: World, nodes: set<NodeId>, since: nat, log: seq<Watch>)
    requires ValidWorld(w) && 0 in w && pf.period > 0
  {
    && |log| > 0
    && Selects(pf, w[0].spec, nodes, CreationTime(pf.strategy), START, log[0])
    && forall i :: 0 <= i < |log| - 1 ==> WatchStep(pf, w, nodes, since + i + 1, log[i], log[i + 1])
  }

  /** The run of one that joins at the start. */
  ghost predicate IsRun(pf: Profile, w: World, nodes: set<NodeId>, log: seq<Watch>)
    requires ValidWorld(w) && 0 in w && pf.period > 0
  {
    IsRunSince(pf, w, nodes, 0, log)
  }

  // ----- runs do not depend on the future -----

  /** w2 continues w: same flows, longer histories, and both have sent at least n messages. */
  ghost predicate Continues(w: World, w2: World, n: nat) {
    && w.Keys == w2.Keys
    && forall id :: id in w ==>
         && w[id].spec == w2[id].spec && w[id].history <= w2[id].history
         && n <= w[id].sent <= w2[id].sent
  }

  lemma ExposedIsStable(w: World, w2: World, n: nat, t: nat, sh: Share, watched: set<NodeId>)
    requires ValidWorld(w) && ValidWorld(w2) && Continues(w, w2, n) && t <= n
    ensures Exposed(w, t, sh, watched) <==> Exposed(w2, t, sh, watched)
  {
    if sh.flowId in w {
      var v, v2 := w[sh.flowId], w2[sh.flowId];
      if v2.InNetwork(t, sh) && sh.seqNum == t {
        assert v2.spec.IsRoute(v2.RouteOf(sh));
      }
      if v.InNetwork(t, sh) && sh.seqNum == t {
        assert v.spec.IsRoute(v.RouteOf(sh));
      }
    }
  }

  lemma RunIsStable(pf: Profile, w: World, w2: World, nodes: set<NodeId>, since: nat, log: seq<Watch>)
    requires ValidWorld(w) && ValidWorld(w2) && 0 in w && pf.period > 0 && |log| > 0
    requires Continues(w, w2, since + |log| - 1) && IsRunSince(pf, w, nodes, since, log)
    ensures IsRunSince(pf, w2, nodes, since, log)
  {
    forall i | 0 <= i < |log| - 1 ensures WatchStep(pf, w2, nodes, since + i + 1, log[i], log[i + 1]) {
      var t, watched := since + i + 1, log[i].monitored;
      forall sh ensures Exposed(w, t, sh, watched) <==> Exposed(w2, t, sh, watched) {
        ExposedIsStable(w, w2, since + |log| - 1, t, sh, watched);
      }
      assert WatchStep(pf, w, nodes, since + i + 1, log[i], log[i + 1]);
    }
  }

  lemma RunExtends(pf: Profile, w: World, nodes: set<NodeId>, since: nat, log: seq<Watch>, b: Watch)
    requires ValidWorld(w) && 0 in w && pf.period > 0 && IsRunSince(pf, w, nodes, since, log)
    requires WatchStep(pf, w, nodes, since + |log|, log[|log| - 1], b)
    ensures IsRunSince(pf, w, nodes, since, log + [b])
  {
    var longer := log + [b];
    forall i | 0 <= i < |longer| - 1 ensures WatchStep(pf, w, nodes, since + i + 1, longer[i], longer[i + 1]) {
      if i < |log| - 1 {
        assert WatchStep(pf, w, nodes, since + i + 1, log[i], log[i + 1]);
      }
    }
  }

  // ----- reconstructing messages -----

  /** Share numbers captured for a message. */
  function ShareNums(captured: set<Share>, s: nat): set<nat> {
    set sh | sh in captured && sh.seqNum == s :: sh.shareNum
  }

  /** Message s can be put together: k different shares of it have been captured. */
  predicate Recovers(k: nat, captured: set<Share>, s: nat) {
    ShareNums(captured, s) != {} && |ShareNums(captured, s)| == k
  }
}
