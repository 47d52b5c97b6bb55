/** The planned attacker follows one wave of messages through the network: while the wave is at hop
    1 + w * period it watches, at that hop, k paths it has not looked at before.  A sweep goes on until all paths
    have been looked at or the hop leaves the paths.  `PlannedRecovers` says exactly what any run recovers;
    `SweepRecovers` and `SlowSweepRecovers` are its two extremes. */
module Sweep {
  import opened Basics
  import opened Products
  import opened Transport
  import opened Attack
  import opened Recovery

  /** The dimensions of a sweep: n paths of len nodes, k looked at per window, `windows` windows of
      `period` steps each. */
  datatype Plan = Plan(n: nat, k: nat, period: nat, windows: nat, len: nat) {

    /** The hop that window w looks at. */
    ghost function Hop(w: nat): nat {
      Times(w, period) + 1
    }

    /** After w windows there are paths left to look at, and the next hop is on the paths. */
    ghost predicate GoesOn(w: nat) {
      Times(w, k) < n && Hop(w) < len
    }

    /** A sweep has as many windows as it can. */
    ghost predicate Fits(f: FlowSpec)
      ensures Fits(f) ==> f.Valid() && k == f.k && n == |f.paths| && period >= 1 && windows >= 1
    {
      && f.Valid() && f.Disjoint() && k == f.k && n == |f.paths|
      && (forall i :: 0 <= i < n ==> |f.paths[i]| == len)
      && len >= 3 && period >= 1 && windows >= 1
      && GoesOn(windows - 1) && !GoesOn(windows)
    }

    /** Steps in a whole sweep. */
    ghost function Cycle(): nat {
      Times(windows, period)
    }

    ghost predicate Interior(h: nat) {
      0 < h < len - 1
    }
  }

  /** Where the attacker is after m whole sweeps, w whole windows and j steps: `seen` are the paths
      looked at in earlier windows of this sweep, `cur` the paths of the present window. */
  datatype Stage = Stage(m: nat, w: nat, j: nat, seen: set<nat>, cur: set<nat>) {

    /** The number of steps at which the window began. */
    ghost function Start(d: Plan): nat {
      Times(m, d.Cycle()) + Times(w, d.period)
    }

    ghost function Steps(d: Plan): nat {
      Start(d) + j
    }

    /** The sets of paths are as large as a sweep that has come this far makes them.  A last window that has
        reached the sink looks at nothing. */
    ghost predicate Consistent(d: Plan) {
      && w < d.windows && j < d.period
      && seen <= Below(d.n) && cur <= Below(d.n) && seen !! cur
      && |seen| == Times(w, d.k)
      && |cur| == (if !d.Interior(d.Hop(w)) then 0 else if d.n - |seen| <= d.k then d.n - |seen| else d.k)
    }

    /** The stage one step later, `next` being the paths of a new window if one starts. */
    ghost function Tick(d: Plan, next: set<nat>): Stage {
      if j + 1 < d.period then this.(j := j + 1)
      else if w + 1 < d.windows then Stage(m, w + 1, 0, seen + cur, next)
      else Stage(m + 1, 0, 0, {}, next)
    }
  }

  /** The attacker watches what the stage says, and remembers the paths it says. */
  ghost predicate Positioned(d: Plan, f: FlowSpec, st: Watch, g: Stage)
    requires d.Fits(f)
  {
    && g.Consistent(d)
    && d.Hop(g.w) < d.len
    && st.hopIndex == d.Hop(g.w) + g.j + 1
    && st.monitored == NodesAtHop(f.paths, d.Hop(g.w), g.cur)
    && st.monitoredPaths == (if g.j == 0 then g.seen else g.seen + g.cur)
  }

  // ----- geometry: one node per path at an interior hop -----

  /** A node at an interior hop is on one path only, at that hop only. */
  lemma InteriorIsUnique(d: Plan, f: FlowSpec, q: nat, h: nat, q': nat, h': nat)
    requires d.Fits(f) && d.Interior(h) && q < d.n && q' < d.n && h' < d.len
    requires f.paths[q][h] == f.paths[q'][h']
    ensures q == q' && h == h'
  {
    assert Crosses(f.paths, q, h, q', h');
    assert f.IsRoute(f.paths[q]);
  }

  /** Adding a path adds a node. */
  lemma OneMoreAtHop(d: Plan, f: FlowSpec, h: nat, idx: set<nat>, q: nat)
    requires d.Fits(f) && d.Interior(h) && idx <= Below(d.n) && q < d.n && q !in idx
    ensures NodesAtHop(f.paths, h, idx + {q}) == NodesAtHop(f.paths, h, idx) + {f.paths[q][h]}
    ensures f.paths[q][h] !in NodesAtHop(f.paths, h, idx)
  {
    forall z | z in idx ensures f.paths[z][h] != f.paths[q][h] {
      if f.paths[z][h] == f.paths[q][h] {
        InteriorIsUnique(d, f, q, h, z, h);
        assert false;
      }
    }
  }

  lemma NodesOfNone(paths: seq<Path>, h: nat)
    requires HopInRange(paths, h)
    ensures NodesAtHop(paths, h, {}) == {}
  {
  }

  lemma {:induction false} CardAtHop(d: Plan, f: FlowSpec, h: nat, idx: set<nat>)
    requires d.Fits(f) && d.Interior(h) && idx <= Below(d.n)
    ensures |NodesAtHop(f.paths, h, idx)| == |idx|
  {
    hide FlowSpec.Valid;
    hide FlowSpec.Disjoint;
    hide NodesAtHop;
    if idx == {} {
      NodesOfNone(f.paths, h);
    } else {
      var q :| q in idx;
      CardAtHop(d, f, h, idx - {q});
      OneMoreAtHop(d, f, h, idx - {q}, q);
      assert idx == (idx - {q}) + {q};
    }
  }

  /** The nodes at a hop on paths not seen number as many as those paths. */
  lemma CardUnseen(d: Plan, f: FlowSpec, h: nat, seen: set<nat>)
    requires d.Fits(f) && d.Interior(h) && seen <= Below(d.n)
    ensures |Candidates(f.paths, h, seen)| == d.n - |seen|
  {
    var all, part := NodesAtHop(f.paths, h, Below(d.n)), NodesAtHop(f.paths, h, seen);
    CardAtHop(d, f, h, Below(d.n));
    CardAtHop(d, f, h, seen);
    assert part <= all;
    assert all == part + (all - part);
    assert Candidates(f.paths, h, seen) == all - part;
  }

  /** Watched nodes at a hop, none of them on a seen path, belong to as many unseen paths. */
  lemma PathsOfNodes(d: Plan, f: FlowSpec, h: nat, watched: set<NodeId>, seen: set<nat>) returns (cur: set<nat>)
    requires d.Fits(f) && d.Interior(h) && seen <= Below(d.n)
    requires watched <= Candidates(f.paths, h, seen)
    ensures cur <= Below(d.n) && seen !! cur && watched == NodesAtHop(f.paths, h, cur) && |cur| == |watched|
  {
    cur := set q | q in Below(d.n) && f.paths[q][h] in watched;
    forall x | x in watched ensures x in NodesAtHop(f.paths, h, cur) {
      var q :| q in Below(d.n) && f.paths[q][h] == x;
      assert q in cur;
    }
    assert watched == NodesAtHop(f.paths, h, cur);
    CardAtHop(d, f, h, cur);
    forall q | q in cur ensures q !in seen {
      assert f.paths[q][h] !in NodesAtHop(f.paths, h, seen);
    }
  }

  /** All paths meet at the sink, so a seen path leaves no candidate there. */
  lemma NothingAtSink(d: Plan, f: FlowSpec, h: nat, seen: set<nat>)
    requires d.Fits(f) && h + 1 == d.len && seen <= Below(d.n) && seen != {}
    ensures Candidates(f.paths, h, seen) == {}
  {
    var q :| q in seen;
    assert f.IsRoute(f.paths[q]) && f.paths[q][h] in NodesAtHop(f.paths, h, seen);
    assert forall z :: 0 <= z < d.n ==> f.IsRoute(f.paths[z]);
  }

  /** Capturing at interior nodes marks exactly their paths. */
  lemma HoldersOfNodes(d: Plan, f: FlowSpec, h: nat, cur: set<nat>)
    requires d.Fits(f) && d.Interior(h) && cur <= Below(d.n)
    ensures (set x | x in NodesAtHop(f.paths, h, cur) :: FirstHolder(f.paths, x)) == cur
  {
    forall q | q in cur ensures FirstHolder(f.paths, f.paths[q][h]) == q {
      var x := f.paths[q][h];
      var z := FirstHolder(f.paths, x);
      assert x in f.paths[q] && z <= q && x in f.paths[z];
      var h' :| 0 <= h' < |f.paths[z]| && f.paths[z][h'] == x;
      InteriorIsUnique(d, f, q, h, z, h');
    }
    var holders := set x | x in NodesAtHop(f.paths, h, cur) :: FirstHolder(f.paths, x);
    forall q | q in cur ensures q in holders {
      assert f.paths[q][h] in NodesAtHop(f.paths, h, cur);
    }
  }

  // ----- counting windows and sweeps -----

  lemma CycleIsPositive(d: Plan, f: FlowSpec)
    requires d.Fits(f)
    ensures d.Cycle() >= d.period > 0
  {
    assert Times(0, d.period) == 0;
    TimesGrows(0, d.windows, d.period);
  }

  /** All windows but the last are inside; and then as many paths as there are watched have been seen. */
  lemma EarlierGoesOn(d: Plan, f: FlowSpec, w: nat)
    requires d.Fits(f) && w < d.windows
    ensures d.GoesOn(w)
    ensures w + 1 < d.windows ==> d.Interior(d.Hop(w))
  {
    assert Times(w + 1, d.period) == Times(w, d.period) + d.period;
    if w < d.windows - 1 {
      TimesGrows(w, d.windows - 1, d.period);
      TimesGrows(w, d.windows - 1, d.k);
    }
  }

  lemma HopAdvances(d: Plan, w: nat)
    ensures d.Hop(w + 1) == d.Hop(w) + d.period && Times(0, d.k) == 0
  {
  }

  lemma TickCounts(d: Plan, g: Stage, next: set<nat>)
    requires g.j < d.period && g.w < d.windows
    ensures g.Tick(d, next).Steps(d) == g.Steps(d) + 1
  {
    if g.j + 1 == d.period {
      assert Times(g.w + 1, d.period) == Times(g.w, d.period) + d.period;
      assert Times(g.m + 1, d.Cycle()) == Times(g.m, d.Cycle()) + d.Cycle();
    }
  }

  /** A selection falls due exactly at the end of a window. */
  lemma SelectionTime(d: Plan, g: Stage)
    requires d.period > 0 && g.j < d.period
    ensures (g.Steps(d) + 1) % d.period == 0 <==> g.j + 1 == d.period
  {
    var z := WholeWindows(d, g.m, g.w);
    QuotRemIsDivMod(g.Steps(d) + 1, d.period);
    if g.j + 1 == d.period {
      assert Times(z + 1, d.period) + 0 == g.Steps(d) + 1;
      QuotRemOf(z + 1, d.period, 0);
    } else {
      QuotRemOf(z, d.period, g.j + 1);
    }
  }

  /** m sweeps and w windows take a whole number of periods. */
  lemma {:induction false} WholeWindows(d: Plan, m: nat, w: nat) returns (z: nat)
    ensures Times(z, d.period) == Times(m, d.Cycle()) + Times(w, d.period)
    decreases m
  {
    if m == 0 {
      z := w;
    } else {
      var y := WholeWindows(d, m - 1, w);
      z := y + d.windows;
      TimesAdds(y, d.windows, d.period);
    }
  }

  /** The number of steps determines sweep, window and step within the window. */
  lemma StepsDetermine(d: Plan, f: FlowSpec, g: Stage, m: nat, w: nat, j: nat)
    requires d.Fits(f) && g.w < d.windows && g.j < d.period && w < d.windows && j < d.period
    requires g.Steps(d) == Times(m, d.Cycle()) + Times(w, d.period) + j
    ensures g.m == m && g.w == w && g.j == j
  {
    hide Times;
    hide Quot;
    hide Rem;
    hide FlowSpec.Valid;
    hide FlowSpec.Disjoint;
    hide Plan.Fits;
    TimesGrows(g.w, d.windows, d.period);
    TimesGrows(w, d.windows, d.period);
    QuotRemOf(g.m, d.Cycle(), Times(g.w, d.period) + g.j);
    QuotRemOf(m, d.Cycle(), Times(w, d.period) + j);
    QuotRemOf(g.w, d.period, g.j);
    QuotRemOf(w, d.period, j);
  }

  // ----- one step of the attacker -----

  /** At the end of a window that is not the last, not all paths have been seen. */
  lemma SeenAfterWindow(d: Plan, f: FlowSpec, g: Stage)
    requires d.Fits(f) && g.Consistent(d) && g.w + 1 < d.windows
    ensures |g.seen + g.cur| == Times(g.w + 1, d.k) < d.n
  {
    EarlierGoesOn(d, f, g.w);
    EarlierGoesOn(d, f, g.w + 1);
    CardUnion(g.seen, g.cur);
    assert Times(g.w + 1, d.k) == Times(g.w, d.k) + d.k;
  }

  /** At the end of the last window all paths have been seen, or the next hop is off the paths. */
  lemma SeenAfterSweep(d: Plan, f: FlowSpec, g: Stage)
    requires d.Fits(f) && g.Consistent(d) && g.w + 1 == d.windows
    ensures d.Interior(d.Hop(g.w)) && Times(d.windows, d.k) >= d.n ==> g.seen + g.cur == Below(d.n)
    ensures g.seen + g.cur == Below(d.n) || d.Hop(d.windows) >= d.len
  {
    EarlierGoesOn(d, f, g.w);
    assert Times(g.w + 1, d.k) == Times(g.w, d.k) + d.k;
    assert Times(g.w + 1, d.period) == Times(g.w, d.period) + d.period;
    if d.Interior(d.Hop(g.w)) && Times(d.windows, d.k) >= d.n {
      CardUnion(g.seen, g.cur);
      CardSubset(g.seen + g.cur, Below(d.n));
    }
  }

  /** A selection watches, at the hop of window w, as many unseen paths as the plan says. */
  lemma EnterWindow(d: Plan, f: FlowSpec, a: Watch, b: Watch, m: nat, w: nat, seen: set<nat>) returns (g: Stage)
    requires d.Fits(f) && w < d.windows && seen <= Below(d.n) && |seen| == Times(w, d.k)
    requires PlannedPicks(d.k, f.paths, d.Hop(w), seen, a, b)
    ensures g.m == m && g.w == w && g.j == 0 && g.seen == seen && Positioned(d, f, b, g)
  {
    hide FlowSpec.Valid;
    hide FlowSpec.Disjoint;
    EarlierGoesOn(d, f, w);
    var cur := {};
    if d.Interior(d.Hop(w)) {
      CardUnseen(d, f, d.Hop(w), seen);
      cur := PathsOfNodes(d, f, d.Hop(w), b.monitored, seen);
    } else {
      SeenSomething(d, f, w, seen);
      NothingAtSink(d, f, d.Hop(w), seen);
    }
    g := Stage(m, w, 0, seen, cur);
    assert g.Consistent(d);
  }

  lemma SeenSomething(d: Plan, f: FlowSpec, w: nat, seen: set<nat>)
    requires d.Fits(f) && !d.Interior(d.Hop(w)) && |seen| == Times(w, d.k)
    ensures seen != {}
  {
    assert w > 0;
    assert Times(w, d.k) == Times(w - 1, d.k) + d.k;
  }

  lemma SweepBegins(d: Plan, pf: Profile, f: FlowSpec, st: Watch) returns (g: Stage)
    requires d.Fits(f) && pf.period == d.period && pf.n == d.n && pf.k == d.k
    requires PlannedSelects(pf, f.paths, true, START, st)
    ensures Positioned(d, f, st, g) && g.Steps(d) == 0 && g.j == 0 && g.w == 0 && g.seen == {}
  {
    assert |f.paths[0]| == d.len;
    assert Times(0, d.period) == 0 && Times(0, d.k) == 0 && Times(0, d.Cycle()) == 0;
    assert !SweepEnds(pf, f.paths, START);
    assert PlannedPicks(d.k, f.paths, 1, {}, START, st);
    g := EnterWindow(d, f, START, st, 0, 0, {});
  }

  /** A selection due before the end of a sweep continues at the next window's hop... */
  lemma PicksNext(d: Plan, pf: Profile, f: FlowSpec, mid: Watch, b: Watch, w: nat)
    requires d.Fits(f) && w < d.windows && pf.n == d.n && pf.k == d.k
    requires PlannedSelects(pf, f.paths, true, mid, b)
    requires mid.hopIndex == d.Hop(w) && |mid.monitoredPaths| < d.n
    ensures PlannedPicks(d.k, f.paths, d.Hop(w), mid.monitoredPaths, mid, b)
  {
    EarlierGoesOn(d, f, w);
    assert |f.paths[0]| == d.len;
    assert !SweepEnds(pf, f.paths, mid);
  }

  /** ... and one due after that starts over. */
  lemma PicksFirst(d: Plan, pf: Profile, f: FlowSpec, mid: Watch, b: Watch)
    requires d.Fits(f) && pf.n == d.n && pf.k == d.k
    requires PlannedSelects(pf, f.paths, true, mid, b) && (|mid.monitoredPaths| == d.n || mid.hopIndex >= d.len)
    ensures PlannedPicks(d.k, f.paths, d.Hop(0), {}, mid, b)
  {
    assert SweepEnds(pf, f.paths, mid) && Times(0, d.period) == 0;
  }

  /** What a selection does at the end of a window: it picks for the next window of this sweep, or
      for the first window of the next sweep. */
  lemma WindowEnds(d: Plan, pf: Profile, f: FlowSpec, g: Stage, mid: Watch, b: Watch)
      returns (m: nat, w: nat, seen: set<nat>)
    requires d.Fits(f) && g.Consistent(d) && g.j + 1 == d.period
    requires pf.period == d.period && pf.n == d.n && pf.k == d.k
    requires PlannedSelects(pf, f.paths, true, mid, b)
    requires mid.hopIndex == d.Hop(g.w) + d.period && mid.monitoredPaths == g.seen + g.cur
    ensures w < d.windows && seen <= Below(d.n) && |seen| == Times(w, d.k)
    ensures PlannedPicks(d.k, f.paths, d.Hop(w), seen, mid, b)
    ensures forall next :: g.Tick(d, next) == Stage(m, w, 0, seen, next)
  {
    hide PlannedPicks;
    hide PlannedSelects;
    hide FlowSpec.Valid;
    hide FlowSpec.Disjoint;
    hide Plan.Fits;
    hide Plan.Hop;
    hide Times;
    HopAdvances(d, g.w);
    if g.w + 1 < d.windows {
      SeenAfterWindow(d, f, g);
      m, w, seen := g.m, g.w + 1, mid.monitoredPaths;
      PicksNext(d, pf, f, mid, b, w);
    } else {
      SeenAfterSweep(d, f, g);
      m, w, seen := g.m + 1, 0, {};
      PicksFirst(d, pf, f, mid, b);
    }
  }

  lemma TurnWindow(d: Plan, pf: Profile, f: FlowSpec, g: Stage, mid: Watch, b: Watch) returns (g': Stage)
    requires d.Fits(f) && g.Consistent(d) && g.j + 1 == d.period
    requires pf.period == d.period && pf.n == d.n && pf.k == d.k
    requires PlannedSelects(pf, f.paths, true, mid, b)
    requires mid.hopIndex == d.Hop(g.w) + d.period && mid.monitoredPaths == g.seen + g.cur
    ensures Positioned(d, f, b, g') && g' == g.Tick(d, g'.cur)
  {
    hide PlannedPicks;
    hide PlannedSelects;
    hide Plan.Fits;
    hide Times;
    hide Positioned;
    var m, w, seen := WindowEnds(d, pf, f, g, mid, b);
    g' := EnterWindow(d, f, mid, b, m, w, seen);
  }

  /** Inside a window the attacker only lets time pass, and notes the window's paths as seen. */
  lemma StayInWindow(d: Plan, f: FlowSpec, g: Stage, a: Watch, mid: Watch, b: Watch)
    requires d.Fits(f) && Positioned(d, f, a, g) && g.j + 1 < d.period
    requires mid.monitored == a.monitored && mid.hopIndex == a.hopIndex && mid.monitoredPaths == g.seen + g.cur
    requires b == mid.(hopIndex := mid.hopIndex + 1)
    ensures Positioned(d, f, b, g.(j := g.j + 1))
  {
  }

  /** The watched nodes are on the paths of the stage. */
  lemma HoldersOfWatched(d: Plan, f: FlowSpec, a: Watch, g: Stage)
    requires d.Fits(f) && Positioned(d, f, a, g)
    ensures (set x | x in a.monitored :: FirstHolder(f.paths, x)) == g.cur
  {
    hide FlowSpec.Valid;
    hide FlowSpec.Disjoint;
    hide NodesAtHop;
    hide FirstHolder;
    if d.Interior(d.Hop(g.w)) {
      HoldersOfNodes(d, f, d.Hop(g.w), g.cur);
    } else {
      NodesOfNone(f.paths, d.Hop(g.w));
      assert g.cur == {} && a.monitored == {};
    }
  }

  lemma NotedPaths(d: Plan, pf: Profile, f: FlowSpec, a: Watch, g: Stage)
    requires d.Fits(f) && Positioned(d, f, a, g) && pf.strategy.Planned?
    ensures Noted(pf, f.paths, a) == a.(monitoredPaths := g.seen + g.cur)
  {
    hide Plan.Fits;
    hide NodesAtHop;
    hide FirstHolder;
    hide Stage.Consistent;
    HoldersOfWatched(d, f, a, g);
    assert Noted(pf, f.paths, a).monitoredPaths == g.seen + g.cur;
  }

  /** One step moves the attacker from a stage to the next one. */
  lemma PositionStep(d: Plan, pf: Profile, f: FlowSpec, a: Watch, g: Stage, captured: set<Share>, b: Watch)
      returns (g': Stage)
    requires d.Fits(f) && Positioned(d, f, a, g)
    requires pf.strategy.Planned? && pf.period == d.period && pf.n == d.n && pf.k == d.k
    requires PlannedSelects(pf, f.paths, g.j + 1 == d.period, Noted(pf, f.paths, a).(captured := captured), b)
    ensures Positioned(d, f, b, g') && g' == g.Tick(d, g'.cur)
    ensures g.j + 1 < d.period ==> b.monitored == a.monitored
  {
    hide Plan.Fits;
    hide NodesAtHop;
    hide Noted;
    var mid := Noted(pf, f.paths, a).(captured := captured);
    NotedPaths(d, pf, f, a, g);
    if g.j + 1 == d.period {
      g' := TurnWindow(d, pf, f, g, mid, b);
    } else {
      StayInWindow(d, f, g, a, mid, b);
      g' := g.(j := g.j + 1);
    }
  }

  /** What a run says of the planned attacker's first selection, and of its step i + 1. */
  lemma PlannedStart(pf: Profile, w: World, nodes: set<NodeId>, log: seq<Watch>)
    requires OneFlow(pf, w) && pf.strategy.Planned? && IsRun(pf, w, nodes, log)
    ensures |log| > 0 && PlannedSelects(pf, w[0].spec.paths, true, START, log[0])
  {
    hide PlannedSelects;
  }

  lemma PlannedStep(pf: Profile, w: World, nodes: set<NodeId>, log: seq<Watch>, i: nat)
    requires OneFlow(pf, w) && pf.strategy.Planned? && IsRun(pf, w, nodes, log) && i + 1 < |log|
    ensures var paths := w[0].spec.paths;
            var noted := Noted(pf, paths, log[i]).(captured := log[i + 1].captured);
            PlannedSelects(pf, paths, (i + 1) % pf.period == 0, noted, log[i + 1])
  {
    hide PlannedSelects;
    hide Exposed;
    hide Noted;
    assert WatchStep(pf, w, nodes, i + 1, log[i], log[i + 1]);
  }

  // ----- the sweep -----

  /** Window w of sweep m drew path q. */
  ghost predicate Drawn(d: Plan, paths: seq<Path>, log: seq<Watch>, m: nat, w: nat, q: nat) {
    var i, h := Times(m, d.Cycle()) + Times(w, d.period), d.Hop(w);
    w < d.windows && i < |log| && q < |paths| && h < |paths[q]| - 1 && paths[q][h] in log[i].monitored
  }

  /** ... or an earlier window of the sweep did. */
  ghost predicate DrawnBefore(d: Plan, paths: seq<Path>, log: seq<Watch>, m: nat, w: nat, q: nat) {
    exists z: nat :: z < w && Drawn(d, paths, log, m, z, q)
  }

  /** After n steps the run is at stage g: the attacker watches what it chose when the window began, and has
      seen what the earlier windows of the sweep drew. */
  ghost predicate AtStage(d: Plan, f: FlowSpec, log: seq<Watch>, n: nat, g: Stage)
    requires d.Fits(f)
  {
    && n < |log| && g.Steps(d) == n && Positioned(d, f, log[n], g)
    && log[n].monitored == log[g.Start(d)].monitored
    && forall q: nat :: q in g.seen <==> DrawnBefore(d, f.paths, log, g.m, g.w, q)
  }

  /** What a window draws are the paths of the stage. */
  lemma DrawnIsCur(d: Plan, f: FlowSpec, log: seq<Watch>, n: nat, g: Stage, q: nat)
    requires d.Fits(f) && AtStage(d, f, log, n, g)
    ensures Drawn(d, f.paths, log, g.m, g.w, q) <==> q in g.cur
  {
    hide DrawnBefore;
    var h := d.Hop(g.w);
    if Drawn(d, f.paths, log, g.m, g.w, q) {
      var z :| z in g.cur && z < d.n && f.paths[z][h] == f.paths[q][h];
      InteriorIsUnique(d, f, q, h, z, h);
    }
  }

  lemma DrawnBeforeGrows(d: Plan, paths: seq<Path>, log: seq<Watch>, m: nat, w: nat, q: nat)
    ensures DrawnBefore(d, paths, log, m, w + 1, q) <==>
            DrawnBefore(d, paths, log, m, w, q) || Drawn(d, paths, log, m, w, q)
  {
    hide Drawn;
  }

  lemma NothingDrawnBefore(d: Plan, paths: seq<Path>, log: seq<Watch>, m: nat)
    ensures forall q: nat :: !DrawnBefore(d, paths, log, m, 0, q)
  {
  }

  lemma StageStep(d: Plan, f: FlowSpec, log: seq<Watch>, n: nat, g: Stage, g': Stage)
    requires d.Fits(f) && AtStage(d, f, log, n, g) && n + 1 < |log|
    requires Positioned(d, f, log[n + 1], g') && g' == g.Tick(d, g'.cur)
    requires g.j + 1 < d.period ==> log[n + 1].monitored == log[n].monitored
    ensures AtStage(d, f, log, n + 1, g')
  {
    hide DrawnBefore;
    hide Plan.Fits;
    hide Times;
    hide Positioned;
    InWindow(d, f, log, n, g);
    TickCounts(d, g, g'.cur);
    NothingDrawnBefore(d, f.paths, log, g'.m);
    forall q: nat ensures q in g'.seen <==> DrawnBefore(d, f.paths, log, g'.m, g'.w, q) {
      DrawnIsCur(d, f, log, n, g, q);
      DrawnBeforeGrows(d, f.paths, log, g.m, g.w, q);
    }
  }

  lemma InWindow(d: Plan, f: FlowSpec, log: seq<Watch>, n: nat, g: Stage)
    requires d.Fits(f) && AtStage(d, f, log, n, g)
    ensures g.w < d.windows && g.j < d.period
  {
  }

  /** Every state of a run is at a stage. */
  lemma {:induction false} SweepInvariant(d: Plan, pf: Profile, w: World, nodes: set<NodeId>, log: seq<Watch>, n: nat)
      returns (g: Stage)
    requires OneFlow(pf, w) && d.Fits(w[0].spec)
    requires pf.strategy.Planned? && pf.period == d.period && pf.n == d.n
    requires IsRun(pf, w, nodes, log) && n < |log|
    ensures AtStage(d, w[0].spec, log, n, g)
  {
    hide IsRun;
    hide PlannedSelects;
    hide Noted;
    hide View.Valid;
    hide Plan.Fits;
    hide Positioned;
    hide Plan.Cycle;
    if n == 0 {
      PlannedStart(pf, w, nodes, log);
      g := SweepBegins(d, pf, w[0].spec, log[0]);
    } else {
      var g0 := SweepInvariant(d, pf, w, nodes, log, n - 1);
      PlannedStep(pf, w, nodes, log, n - 1);
      DueAt(d, w[0].spec, log, n - 1, g0);
      g := PositionStep(d, pf, w[0].spec, log[n - 1], g0, log[n].captured, log[n]);
      StageStep(d, w[0].spec, log, n - 1, g0, g);
    }
  }

  lemma DueAt(d: Plan, f: FlowSpec, log: seq<Watch>, n: nat, g: Stage)
    requires d.Fits(f) && AtStage(d, f, log, n, g)
    ensures (n + 1) % d.period == 0 <==> g.j + 1 == d.period
  {
    SelectionTime(d, g);
  }

  // ----- what a run recovers -----

  /** Message s belongs to the wave of its sweep, and window w of that sweep drew path q in time. */
  ghost predicate CaughtBy(d: Plan, paths: seq<Path>, log: seq<Watch>, n: nat, s: nat, q: nat, w: nat)
    requires d.Cycle() > 0
  {
    && Rem(s, d.Cycle()) < d.period && s + d.Hop(w) <= n
    && Drawn(d, paths, log, Quot(s, d.Cycle()), w, q)
  }

  /** Some window caught share j of message s. */
  ghost predicate Followed(d: Plan, v: View, log: seq<Watch>, n: nat, s: nat, j: nat)
    requires v.Valid() && d.Cycle() > 0 && s < v.sent && j < v.spec.k
  {
    exists z: nat :: CaughtBy(d, v.spec.paths, log, n, s, v.history[s][j], z)
  }

  /** A share is watched at some hop exactly when the window at that hop drew its path. */
  lemma WatchedIsDrawn(
      d: Plan, pf: Profile, w: World, nodes: set<NodeId>, log: seq<Watch>, n: nat, s: nat, j: nat, h: nat)
      returns (z: nat)
    requires OneFlow(pf, w) && d.Fits(w[0].spec) && d.Cycle() > 0
    requires pf.strategy.Planned? && pf.period == d.period && pf.n == d.n
    requires IsRun(pf, w, nodes, log) && n < |log| && s < w[0].sent && j < w[0].spec.k
    requires s + h <= n && WatchedAt(w[0], log, s, j, h)
    ensures CaughtBy(d, w[0].spec.paths, log, n, s, w[0].history[s][j], z)
  {
    hide IsRun;
    hide Times;
    hide FlowSpec.Valid;
    hide FlowSpec.Disjoint;
    hide DrawnBefore;
    var f, q, i := w[0].spec, w[0].history[s][j], s + h - 1;
    var g := SweepInvariant(d, pf, w, nodes, log, i);
    z := g.w;
    var q' :| q' in g.cur && q' < d.n && f.paths[q'][d.Hop(z)] == f.paths[q][h];
    InteriorIsUnique(d, f, q, h, q', d.Hop(z));
    DrawnIsCur(d, f, log, i, g, q);
    assert s == Times(g.m, d.Cycle()) + g.j;
    PeriodFits(d, f, g.j);
    QuotRemOf(g.m, d.Cycle(), g.j);
  }

  lemma PeriodFits(d: Plan, f: FlowSpec, j: nat)
    requires d.Fits(f) && j < d.period
    ensures j < d.Cycle()
  {
    CycleIsPositive(d, f);
  }

  lemma DrawnIsWatched(
      d: Plan, pf: Profile, w: World, nodes: set<NodeId>, log: seq<Watch>, n: nat, s: nat, j: nat, z: nat)
    requires OneFlow(pf, w) && d.Fits(w[0].spec) && d.Cycle() > 0
    requires pf.strategy.Planned? && pf.period == d.period && pf.n == d.n
    requires IsRun(pf, w, nodes, log) && n < |log| && s < w[0].sent && j < w[0].spec.k
    requires CaughtBy(d, w[0].spec.paths, log, n, s, w[0].history[s][j], z)
    ensures WatchedAt(w[0], log, s, j, d.Hop(z))
  {
    hide IsRun;
    hide Times;
    hide Quot;
    hide Rem;
    hide FlowSpec.Valid;
    hide FlowSpec.Disjoint;
    hide DrawnBefore;
    QuotRemExact(s, d.Cycle());
    var i := s + d.Hop(z) - 1;
    var g := SweepInvariant(d, pf, w, nodes, log, i);
    StepsDetermine(d, w[0].spec, g, Quot(s, d.Cycle()), z, Rem(s, d.Cycle()));
  }

  /** Message s is recovered within n steps exactly when it is one of the first `period` of its sweep and each
      of its paths was drawn, in time, by a window of that sweep. */
  lemma RecoversByDraws(d: Plan, pf: Profile, w: World, nodes: set<NodeId>, log: seq<Watch>, n: nat, s: nat)
    requires OneFlow(pf, w) && d.Fits(w[0].spec) && d.Cycle() > 0
    requires pf.strategy.Planned? && pf.period == d.period && pf.n == d.n
    requires IsRun(pf, w, nodes, log) && n < |log| && n <= w[0].sent
    ensures Recovers(pf.k, log[n].captured, s) <==>
            s < n && forall j :: 0 <= j < pf.k ==> Followed(d, w[0], log, n, s, j)
  {
    hide IsRun;
    hide CaughtBy;
    hide WatchedAt;
    hide FlowSpec.Disjoint;
    hide Plan.Fits;
    hide Recovers;
    var v := w[0];
    RecoversIff(pf, w, nodes, log, n, s);
    if s < v.sent {
      forall j | 0 <= j < pf.k
        ensures Caught(v, log, n, s, j) <==> Followed(d, v, log, n, s, j)
        ensures Caught(v, log, n, s, j) ==> s < n
      {
        if h: nat :| s + h <= n && WatchedAt(v, log, s, j, h) {
          var z := WatchedIsDrawn(d, pf, w, nodes, log, n, s, j, h);
          HopIsPositive(d, v, log, n, s, j, h);
        }
        if z: nat :| CaughtBy(d, v.spec.paths, log, n, s, v.history[s][j], z) {
          DrawnIsWatched(d, pf, w, nodes, log, n, s, j, z);
          InTime(d, v.spec.paths, log, n, s, v.history[s][j], z);
        }
      }
      assert Caught(v, log, n, s, 0) ==> s < n;
    }
  }

  lemma HopIsPositive(d: Plan, v: View, log: seq<Watch>, n: nat, s: nat, j: nat, h: nat)
    requires v.Valid() && s < v.sent && j < v.spec.k && s + h <= n && WatchedAt(v, log, s, j, h)
    ensures s < n
  {
  }

  lemma InTime(d: Plan, paths: seq<Path>, log: seq<Watch>, n: nat, s: nat, q: nat, z: nat)
    requires d.Cycle() > 0 && CaughtBy(d, paths, log, n, s, q, z)
    ensures s + d.Hop(z) <= n
  {
  }

  // ----- the same with products and remainders -----

  /** How many windows a sweep has: as many as it takes to look at all paths, unless they do not fit on the paths.
      (A window that falls on the sink is counted: it lasts as long as the others, and draws nothing.) */
  function Windows(pf: Profile, len: nat): (m: nat)
    requires 1 <= pf.k <= pf.n && pf.period > 0 && len >= 2
    ensures m >= 1
  {
    var all, most := Rounds(pf.n, pf.k), (len - 2) / pf.period + 1;
    if all <= most then all else most
  }

  /** How many windows it takes to look at n paths, k at a time. */
  function Rounds(n: nat, k: nat): (r: nat)
    requires 1 <= k <= n
    ensures r >= 1 && Times(r - 1, k) < n <= Times(r, k)
  {
    DivModExact(n + k - 1, k);
    (n + k - 1) / k
  }

  lemma RoundsBounds(n: nat, k: nat)
    requires 1 <= k <= n
    ensures (Rounds(n, k) - 1) * k < n <= Rounds(n, k) * k
  {
    TimesIsProduct(Rounds(n, k) - 1, k);
    TimesIsProduct(Rounds(n, k), k);
  }

  /** The number of steps in a sweep. */
  function Cycle(pf: Profile, len: nat): (c: nat)
    requires 1 <= pf.k <= pf.n && pf.period > 0 && len >= 2
    ensures c > 0
  {
    CycleAtLeast(Windows(pf, len), pf.period);
    Windows(pf, len) * pf.period
  }

  lemma CycleAtLeast(m: nat, period: nat)
    requires m >= 1
    ensures m * period >= period
  {
    TimesIsProduct(m, period);
    assert Times(m, period) == Times(m - 1, period) + period;
  }

  /** The plan that a profile makes. */
  lemma PlanOf(pf: Profile, f: FlowSpec, len: nat) returns (d: Plan)
    requires f.Valid() && f.Disjoint() && pf.n == |f.paths| && pf.k == f.k && pf.period > 0 && len >= 3
    requires forall i :: 0 <= i < |f.paths| ==> |f.paths[i]| == len
    ensures d == Plan(pf.n, pf.k, pf.period, Windows(pf, len), len) && d.Fits(f) && d.Cycle() == Cycle(pf, len)
  {
    var n, k, p := pf.n, pf.k, pf.period;
    var all, last := Rounds(n, k), (len - 2) / p;
    d := Plan(n, k, p, Windows(pf, len), len);
    DivModExact(len - 2, p);
    WindowCount(d, all, last);
    TimesIsProduct(d.windows, p);
  }

  /** A sweep goes on while neither bound is reached. */
  lemma WindowCount(d: Plan, all: nat, last: nat)
    requires d.k >= 1 && d.period >= 1 && d.n >= 1 && d.len >= 3 && all >= 1
    requires Times(all - 1, d.k) < d.n <= Times(all, d.k)
    requires Times(last, d.period) <= d.len - 2 < Times(last, d.period) + d.period
    requires d.windows == if all <= last + 1 then all else last + 1
    ensures d.GoesOn(d.windows - 1) && !d.GoesOn(d.windows)
  {
    var w := d.windows - 1;
    assert Times(last + 1, d.period) == Times(last, d.period) + d.period;
    if w < all - 1 {
      TimesGrows(w, all - 1, d.k);
    }
    if w < last {
      TimesGrows(w, last, d.period);
    }
  }

  /** Window z of the sweep that began after `start` steps drew the path of share j of message s, and the share
      was there within n steps. */
  ghost predicate DrewPath(v: View, log: seq<Watch>, start: nat, period: nat, n: nat, s: nat, j: nat, z: nat)
    requires v.Valid() && s < v.sent && j < v.spec.k
  {
    var p := v.spec.paths[v.history[s][j]];
    && s + z * period + 1 <= n && start + z * period < |log|
    && 0 < z * period + 1 < |p| - 1 && p[z * period + 1] in log[start + z * period].monitored
  }

  ghost predicate DrewPathIn(
      v: View, log: seq<Watch>, start: nat, period: nat, windows: nat, n: nat, s: nat, j: nat)
    requires v.Valid() && s < v.sent && j < v.spec.k
  {
    exists z: nat :: z < windows && DrewPath(v, log, start, period, n, s, j, z)
  }

  /** Message s was sent in the first `period` steps of a sweep, and that sweep drew all its paths in time. */
  ghost predicate SweptUp(pf: Profile, v: View, log: seq<Watch>, len: nat, n: nat, s: nat)
    requires 1 <= pf.k <= pf.n && pf.period > 0 && len >= 2 && v.Valid() && s < v.sent && pf.k == v.spec.k
  {
    var late, windows := s % Cycle(pf, len), Windows(pf, len);
    late < pf.period &&
    var start := RoundDown(s, Cycle(pf, len));
    forall j :: 0 <= j < pf.k ==> DrewPathIn(v, log, start, pf.period, windows, n, s, j)
  }

  lemma FollowedIsDrew(d: Plan, v: View, log: seq<Watch>, n: nat, s: nat, j: nat)
    requires v.Valid() && d.Cycle() > 0 && d.period > 0 && s < v.sent && j < v.spec.k
    ensures Followed(d, v, log, n, s, j) <==>
            && s % d.Cycle() < d.period
            && DrewPathIn(v, log, RoundDown(s, d.Cycle()), d.period, d.windows, n, s, j)
  {
    var c, q := d.Cycle(), v.history[s][j];
    QuotRemIsDivMod(s, c);
    QuotRemExact(s, c);
    hide Plan.Cycle;
    hide Quot;
    hide Rem;
    var start := RoundDown(s, c);
    forall z: nat
      ensures CaughtBy(d, v.spec.paths, log, n, s, q, z) <==>
              s % c < d.period && z < d.windows && DrewPath(v, log, start, d.period, n, s, j, z)
    {
      TimesIsProduct(z, d.period);
    }
  }

  /** The planned attacker, exactly, for every number of steps: message s is recovered if and only if it was sent
      in the first `period` steps of a sweep and that sweep drew all of its paths, each in time.  A sweep takes
      `Cycle` steps. */
  lemma PlannedRecovers(pf: Profile, w: World, nodes: set<NodeId>, len: nat, log: seq<Watch>, n: nat, s: nat)
    requires OneFlow(pf, w) && pf.strategy.Planned? && pf.n == |w[0].spec.paths| && len >= 3
    requires forall i :: 0 <= i < |w[0].spec.paths| ==> |w[0].spec.paths[i]| == len
    requires IsRun(pf, w, nodes, log) && n < |log| && n <= w[0].sent
    ensures Recovers(pf.k, log[n].captured, s) <==> s < n && SweptUp(pf, w[0], log, len, n, s)
  {
    hide IsRun;
    hide Recovers;
    hide Followed;
    hide DrewPathIn;
    hide Windows;
    hide Cycle;
    hide RoundDown;
    var d := PlanOf(pf, w[0].spec, len);
    hide Plan.Cycle;
    RecoversByDraws(d, pf, w, nodes, log, n, s);
    if s < n {
      var late := s % d.Cycle();
      var start := RoundDown(s, d.Cycle());
      forall j | 0 <= j < pf.k
        ensures Followed(d, w[0], log, n, s, j) <==>
                late < d.period && DrewPathIn(w[0], log, start, d.period, d.windows, n, s, j)
      {
        FollowedIsDrew(d, w[0], log, n, s, j);
      }
      assert Followed(d, w[0], log, n, s, 0) ==> s % d.Cycle() < d.period;
    }
  }

  /** On paths without an interior no attacker recovers anything. */
  lemma DirectPathsAreSafe(pf: Profile, w: World, nodes: set<NodeId>, log: seq<Watch>, n: nat, s: nat)
    requires OneFlow(pf, w) && IsRun(pf, w, nodes, log) && n < |log|
    requires forall i :: 0 <= i < |w[0].spec.paths| ==> |w[0].spec.paths[i]| == 2
    ensures !Recovers(pf.k, log[n].captured, s)
  {
    hide IsRun;
    hide Recovers;
    RecoversIff(pf, w, nodes, log, n, s);
    assert s < w[0].sent ==> !Caught(w[0], log, n, s, 0);
  }

  // ----- sweeps that see all paths -----

  /** Whether a sweep gets round all paths on interior hops. */
  ghost predicate Full(d: Plan) {
    d.windows >= 1 && d.Interior(d.Hop(d.windows - 1)) && Times(d.windows, d.k) >= d.n
  }

  /** When the last window is on an interior hop and takes in all paths that are left, the sweep draws every path. */
  lemma AllDrawn(d: Plan, pf: Profile, w: World, nodes: set<NodeId>, log: seq<Watch>, m: nat, q: nat) returns (z: nat)
    requires OneFlow(pf, w) && d.Fits(w[0].spec) && q < d.n
    requires pf.strategy.Planned? && pf.period == d.period && pf.n == d.n
    requires IsRun(pf, w, nodes, log) && Times(m, d.Cycle()) + Times(d.windows - 1, d.period) < |log|
    requires Full(d)
    ensures z < d.windows && Drawn(d, w[0].spec.paths, log, m, z, q)
  {
    hide IsRun;
    hide Positioned;
    hide Drawn;
    hide Plan.Fits;
    var i := Times(m, d.Cycle()) + Times(d.windows - 1, d.period);
    var g := SweepInvariant(d, pf, w, nodes, log, i);
    InWindow(d, w[0].spec, log, i, g);
    StepsDetermine(d, w[0].spec, g, m, d.windows - 1, 0);
    LastSees(d, w[0].spec, log, i, g);
    assert q in g.seen + g.cur;
    if q in g.cur {
      DrawnIsCur(d, w[0].spec, log, i, g, q);
      z := g.w;
    } else {
      assert DrawnBefore(d, w[0].spec.paths, log, m, g.w, q);
      z :| z < g.w && Drawn(d, w[0].spec.paths, log, m, z, q);
    }
  }

  lemma LastSees(d: Plan, f: FlowSpec, log: seq<Watch>, n: nat, g: Stage)
    requires d.Fits(f) && AtStage(d, f, log, n, g) && g.w + 1 == d.windows
    requires d.Interior(d.Hop(g.w)) && Times(d.windows, d.k) >= d.n
    ensures g.seen + g.cur == Below(d.n)
  {
    hide Plan.Fits;
    hide DrawnBefore;
    SeenAfterSweep(d, f, g);
  }

  /** ... so a message of the wave is recovered once the last window has passed it. */
  lemma FullSweepFollows(
      d: Plan, pf: Profile, w: World, nodes: set<NodeId>, log: seq<Watch>, n: nat, s: nat, j: nat)
    requires OneFlow(pf, w) && d.Fits(w[0].spec) && d.Cycle() > 0
    requires pf.strategy.Planned? && pf.period == d.period && pf.n == d.n
    requires IsRun(pf, w, nodes, log) && n < |log| && s < w[0].sent && j < w[0].spec.k
    requires Full(d)
    requires s + d.Hop(d.windows - 1) <= n && Rem(s, d.Cycle()) < d.period
    ensures Followed(d, w[0], log, n, s, j)
  {
    hide IsRun;
    hide Drawn;
    hide Plan.Fits;
    hide Plan.Cycle;
    hide FlowSpec.Valid;
    hide FlowSpec.Disjoint;
    QuotRemExact(s, d.Cycle());
    var z := AllDrawn(d, pf, w, nodes, log, Quot(s, d.Cycle()), w[0].history[s][j]);
    if z < d.windows - 1 {
      TimesGrows(z, d.windows - 1, d.period);
    }
    assert CaughtBy(d, w[0].spec.paths, log, n, s, w[0].history[s][j], z);
  }

  lemma FullPlanOf(pf: Profile, f: FlowSpec, r: nat, len: nat) returns (d: Plan)
    requires f.Valid() && f.Disjoint() && pf.n == |f.paths| && pf.k == f.k && pf.period > 0
    requires forall i :: 0 <= i < |f.paths| ==> |f.paths[i]| == len
    requires r >= 1 && (r - 1) * pf.k < pf.n <= r * pf.k && (r - 1) * pf.period + 1 <= len - 2
    ensures d == Plan(pf.n, pf.k, pf.period, r, len) && d.Fits(f) && d.Cycle() == r * pf.period > 0
    ensures d.Interior(d.Hop(r - 1)) && Times(r, d.k) >= d.n && d.Hop(r - 1) == (r - 1) * pf.period + 1
  {
    d := Plan(pf.n, pf.k, pf.period, r, len);
    TimesIsProduct(r - 1, pf.k);
    TimesIsProduct(r, pf.k);
    TimesIsProduct(r - 1, pf.period);
    TimesIsProduct(r, pf.period);
  }

  /** Paths long enough for r = ceil(N / k) windows on interior hops.  Whatever the samples were, a message that
      the last window has had time to pass is recovered if and only if it is one of the first `period` messages
      of its sweep of r * period steps. */
  lemma SweepRecovers(pf: Profile, w: World, nodes: set<NodeId>, len: nat, r: nat, log: seq<Watch>, n: nat, s: nat)
    requires OneFlow(pf, w) && pf.strategy.Planned? && pf.n == |w[0].spec.paths|
    requires forall i :: 0 <= i < |w[0].spec.paths| ==> |w[0].spec.paths[i]| == len
    requires r >= 1 && (r - 1) * pf.k < pf.n <= r * pf.k && (r - 1) * pf.period + 1 <= len - 2
    requires IsRun(pf, w, nodes, log) && n < |log| && n <= w[0].sent
    requires s + (r - 1) * pf.period + 1 <= n && r * pf.period > 0
    ensures Recovers(pf.k, log[n].captured, s) <==> s % (r * pf.period) < pf.period
  {
    hide IsRun;
    hide Recovers;
    hide Followed;
    hide FlowSpec.Valid;
    hide FlowSpec.Disjoint;
    var d := FullPlanOf(pf, w[0].spec, r, len);
    hide Plan.Cycle;
    hide Plan.Hop;
    hide Plan.Fits;
    QuotRemIsDivMod(s, d.Cycle());
    RecoversByDraws(d, pf, w, nodes, log, n, s);
    forall j | 0 <= j < pf.k ensures Followed(d, w[0], log, n, s, j) <==> Rem(s, d.Cycle()) < d.period {
      if Rem(s, d.Cycle()) < d.period {
        FullSweepFollows(d, pf, w, nodes, log, n, s, j);
      } else {
        OnlyTheWave(d, w[0], log, n, s, j);
      }
    }
    assert Followed(d, w[0], log, n, s, 0) ==> Rem(s, d.Cycle()) < d.period;
  }

  lemma OnlyTheWave(d: Plan, v: View, log: seq<Watch>, n: nat, s: nat, j: nat)
    requires v.Valid() && d.Cycle() > 0 && s < v.sent && j < v.spec.k && Rem(s, d.Cycle()) >= d.period
    ensures !Followed(d, v, log, n, s, j)
  {
  }

  /** In particular after m whole sweeps: the recovered messages are those s < m * r * period with
      s % (r * period) < period.  With hop period 1 these are 0, r, 2r, ..., (m-1)r. */
  lemma WholeSweepsRecover(
      pf: Profile, w: World, nodes: set<NodeId>, len: nat, r: nat, log: seq<Watch>, n: nat, m: nat, s: nat)
    requires OneFlow(pf, w) && pf.strategy.Planned? && pf.n == |w[0].spec.paths|
    requires forall i :: 0 <= i < |w[0].spec.paths| ==> |w[0].spec.paths[i]| == len
    requires r >= 1 && (r - 1) * pf.k < pf.n <= r * pf.k && (r - 1) * pf.period + 1 <= len - 2
    requires IsRun(pf, w, nodes, log) && n < |log| && n <= w[0].sent
    requires r * pf.period > 0 && n == m * (r * pf.period)
    ensures Recovers(pf.k, log[n].captured, s) <==> s < n && s % (r * pf.period) < pf.period
  {
    hide IsRun;
    hide Recovers;
    hide Followed;
    hide FlowSpec.Valid;
    hide FlowSpec.Disjoint;
    var d := FullPlanOf(pf, w[0].spec, r, len);
    TimesIsProduct(m, d.Cycle());
    QuotRemIsDivMod(s, d.Cycle());
    if s < n && Rem(s, d.Cycle()) < d.period {
      LastWindowInTime(d, m, s);
      SweepRecovers(pf, w, nodes, len, r, log, n, s);
    } else {
      RecoversByDraws(d, pf, w, nodes, log, n, s);
      if s < n {
        OnlyTheWave(d, w[0], log, n, s, 0);
      }
    }
  }

  lemma LastWindowInTime(d: Plan, m: nat, s: nat)
    requires d.Cycle() > 0 && d.windows >= 1 && s < Times(m, d.Cycle()) && Rem(s, d.Cycle()) < d.period
    ensures s + d.Hop(d.windows - 1) <= Times(m, d.Cycle())
  {
    QuotRemExact(s, d.Cycle());
    QuotBelow(s, d.Cycle(), m);
    TimesGrows(Quot(s, d.Cycle()), m, d.Cycle());
  }

  // ----- sweeps that miss a path -----

  /** A sweep that is not full leaves some path unseen, however far it has come. */
  lemma SeesTooFew(d: Plan, f: FlowSpec, g: Stage)
    requires d.Fits(f) && g.Consistent(d) && !Full(d)
    ensures |g.seen + g.cur| < d.n
  {
    CardUnion(g.seen, g.cur);
    if g.w + 1 < d.windows {
      SeenAfterWindow(d, f, g);
    } else {
      EarlierGoesOn(d, f, g.w);
      assert Times(g.w + 1, d.k) == Times(g.w, d.k) + d.k;
    }
  }

  lemma SomeUnseen(n: nat, seen: set<nat>) returns (q: nat)
    requires |seen| < n
    ensures q < n && q !in seen
  {
    if Below(n) <= seen {
      CardSubset(Below(n), seen);
      assert false;
    }
    q :| q in Below(n) && q !in seen;
  }

  /** What a stage has not seen no window up to the present one has drawn. */
  lemma UnseenIsUndrawn(d: Plan, f: FlowSpec, log: seq<Watch>, n: nat, g: Stage, q: nat, z: nat)
    requires d.Fits(f) && AtStage(d, f, log, n, g) && q !in g.seen + g.cur && z <= g.w
    ensures !Drawn(d, f.paths, log, g.m, z, q)
  {
    hide Drawn;
    hide Positioned;
    hide Plan.Fits;
    if z == g.w {
      DrawnIsCur(d, f, log, n, g, q);
    } else {
      assert !DrawnBefore(d, f.paths, log, g.m, g.w, q);
    }
  }

  /** Every sweep of a run, finished or not, leaves some path undrawn, unless it is full. */
  lemma SweepMisses(d: Plan, pf: Profile, w: World, nodes: set<NodeId>, log: seq<Watch>, m: nat) returns (q: nat)
    requires OneFlow(pf, w) && d.Fits(w[0].spec) && !Full(d)
    requires pf.strategy.Planned? && pf.period == d.period && pf.n == d.n && IsRun(pf, w, nodes, log)
    ensures q < d.n && forall z: nat :: !Drawn(d, w[0].spec.paths, log, m, z, q)
  {
    hide IsRun;
    hide Plan.Fits;
    hide Positioned;
    hide DrawnBefore;
    hide Full;
    var f, start := w[0].spec, Times(m, d.Cycle());
    if start >= |log| {
      q := 0;
    } else {
      var last := start + Times(d.windows - 1, d.period);
      var i := if last < |log| then last else |log| - 1;
      var g := SweepInvariant(d, pf, w, nodes, log, i);
      InWindow(d, f, log, i, g);
      WithinSweep(d, f, g, m, i - start);
      Seen(d, f, log, i, g);
      SeesTooFew(d, f, g);
      q := SomeUnseen(d.n, g.seen + g.cur);
      forall z: nat ensures !Drawn(d, f.paths, log, m, z, q) {
        if z <= g.w {
          UnseenIsUndrawn(d, f, log, i, g, q, z);
        } else if z < d.windows {
          TimesGrows(g.w, z, d.period);
        }
      }
    }
  }

  lemma Seen(d: Plan, f: FlowSpec, log: seq<Watch>, n: nat, g: Stage)
    requires d.Fits(f) && AtStage(d, f, log, n, g)
    ensures g.Consistent(d)
  {
  }

  /** Which sweep a number of steps belongs to; at its last window's start it is in that window. */
  lemma WithinSweep(d: Plan, f: FlowSpec, g: Stage, m: nat, i: nat)
    requires d.Fits(f) && g.w < d.windows && g.j < d.period
    requires g.Steps(d) == Times(m, d.Cycle()) + i && i <= Times(d.windows - 1, d.period)
    ensures g.m == m && (i == Times(d.windows - 1, d.period) ==> g.w == d.windows - 1)
  {
    TimesGrows(g.w, d.windows, d.period);
    TimesGrows(d.windows - 1, d.windows, d.period);
    QuotRemOf(g.m, d.Cycle(), Times(g.w, d.period) + g.j);
    QuotRemOf(m, d.Cycle(), i);
    if i == Times(d.windows - 1, d.period) {
      StepsDetermine(d, f, g, m, d.windows - 1, 0);
    }
  }

  /** In N, K, P and L: a sweep is full if and only if the paths have (r - 1) * P + 1 interior nodes. */
  lemma FullIff(pf: Profile, f: FlowSpec, len: nat, d: Plan)
    requires 1 <= pf.k <= pf.n && pf.period > 0 && len >= 3
    requires d == Plan(pf.n, pf.k, pf.period, Windows(pf, len), len) && d.Fits(f)
    ensures Full(d) <==> LongEnough(pf.n, pf.k, pf.period, len - 2)
  {
    hide FlowSpec.Valid;
    hide FlowSpec.Disjoint;
    var r := Rounds(pf.n, pf.k);
    TimesIsProduct(r - 1, pf.period);
    if d.windows < r {
      if d.windows < r - 1 {
        TimesGrows(d.windows, r - 1, pf.k);
      }
      DivModExact(len - 2, pf.period);
      LastFits(len - 2, pf.period, d.windows, r);
    }
  }

  lemma LastFits(l: nat, period: nat, windows: nat, r: nat)
    requires period > 0 && windows == l / period + 1 < r
    ensures Times(r - 1, period) + 1 > l
  {
    DivModExact(l, period);
    if windows < r - 1 {
      TimesGrows(windows, r - 1, period);
    }
    assert Times(windows, period) == Times(windows - 1, period) + period;
  }

  /** Chains of l interior nodes are long enough for a sweep over n paths, k at a time. */
  predicate LongEnough(n: nat, k: nat, period: nat, l: nat)
    requires 1 <= k <= n
  {
    (Rounds(n, k) - 1) * period + 1 <= l
  }

  /** The number of steps at which sweep m begins, and at which its last window does. */
  function StartOf(pf: Profile, len: nat, m: nat): nat
    requires 1 <= pf.k <= pf.n && pf.period > 0 && len >= 2
  {
    m * Cycle(pf, len)
  }

  function LastStartOf(pf: Profile, len: nat, m: nat): nat
    requires 1 <= pf.k <= pf.n && pf.period > 0 && len >= 2
  {
    StartOf(pf, len, m) + (Windows(pf, len) - 1) * pf.period
  }

  /** Some window of sweep m drew path q. */
  ghost predicate Looked(paths: seq<Path>, log: seq<Watch>, start: nat, period: nat, windows: nat, q: nat) {
    exists z: nat :: z < windows && LookedAt(paths, log, start, period, q, z)
  }

  ghost predicate LookedAt(paths: seq<Path>, log: seq<Watch>, start: nat, period: nat, q: nat, z: nat) {
    && start + z * period < |log| && q < |paths|
    && 0 < z * period + 1 < |paths[q]| - 1 && paths[q][z * period + 1] in log[start + z * period].monitored
  }

  lemma LookedIsDrawn(d: Plan, paths: seq<Path>, log: seq<Watch>, m: nat, q: nat)
    ensures Looked(paths, log, Times(m, d.Cycle()), d.period, d.windows, q) <==>
            exists z: nat :: Drawn(d, paths, log, m, z, q)
  {
    var start := Times(m, d.Cycle());
    hide Plan.Cycle;
    forall z: nat
      ensures Drawn(d, paths, log, m, z, q) <==> z < d.windows && LookedAt(paths, log, start, d.period, q, z)
    {
      TimesIsProduct(z, d.period);
    }
  }

  /** The planned attacker sees all paths exactly if they are long enough: a sweep whose last window has begun drew
      every path if and only if the paths have (r - 1) * P + 1 interior nodes, r = ceil(N / K). */
  lemma SweepSeesAllIff(pf: Profile, w: World, nodes: set<NodeId>, len: nat, log: seq<Watch>, m: nat)
    requires OneFlow(pf, w) && pf.strategy.Planned? && pf.n == |w[0].spec.paths| && len >= 3
    requires forall i :: 0 <= i < |w[0].spec.paths| ==> |w[0].spec.paths[i]| == len
    requires IsRun(pf, w, nodes, log) && LastStartOf(pf, len, m) < |log|
    ensures var start, windows := StartOf(pf, len, m), Windows(pf, len);
            (forall q: nat :: q < pf.n ==> Looked(w[0].spec.paths, log, start, pf.period, windows, q)) <==>
            LongEnough(pf.n, pf.k, pf.period, len - 2)
  {
    hide IsRun;
    hide Drawn;
    hide Looked;
    hide Windows;
    hide Cycle;
    hide Full;
    var f := w[0].spec;
    var d := PlanOf(pf, f, len);
    FullIff(pf, f, len, d);
    hide Plan.Fits;
    hide Plan.Cycle;
    TimesIsProduct(m, d.Cycle());
    TimesIsProduct(d.windows - 1, d.period);
    var start := Times(m, d.Cycle());
    if Full(d) {
      forall q: nat | q < pf.n ensures Looked(f.paths, log, start, d.period, d.windows, q) {
        var z := AllDrawn(d, pf, w, nodes, log, m, q);
        LookedIsDrawn(d, f.paths, log, m, q);
      }
    } else {
      var q := SweepMisses(d, pf, w, nodes, log, m);
      LookedIsDrawn(d, f.paths, log, m, q);
      assert !Looked(f.paths, log, start, d.period, d.windows, q);
    }
  }

  /** On shorter paths every sweep misses a path, and no message of the sweep that travels on it is ever recovered. */
  lemma ShortSweepMisses(pf: Profile, w: World, nodes: set<NodeId>, len: nat, log: seq<Watch>, m: nat) returns (q: nat)
    requires OneFlow(pf, w) && pf.strategy.Planned? && pf.n == |w[0].spec.paths| && len >= 3
    requires forall i :: 0 <= i < |w[0].spec.paths| ==> |w[0].spec.paths[i]| == len
    requires !LongEnough(pf.n, pf.k, pf.period, len - 2) && IsRun(pf, w, nodes, log)
    ensures q < pf.n
    ensures forall n: nat, s: nat ::
              n < |log| && n <= w[0].sent && s < n && s / Cycle(pf, len) == m && q in w[0].history[s] ==>
              !Recovers(pf.k, log[n].captured, s)
  {
    hide IsRun;
    hide Drawn;
    hide Recovers;
    hide Full;
    var d := PlanOf(pf, w[0].spec, len);
    FullIff(pf, w[0].spec, len, d);
    hide Plan.Fits;
    hide Plan.Cycle;
    hide Cycle;
    hide Windows;
    q := SweepMisses(d, pf, w, nodes, log, m);
    forall n: nat, s: nat | n < |log| && n <= w[0].sent && s < n && s / Cycle(pf, len) == m && q in w[0].history[s]
      ensures !Recovers(pf.k, log[n].captured, s)
    {
      var j :| 0 <= j < |w[0].history[s]| && w[0].history[s][j] == q;
      QuotRemIsDivMod(s, d.Cycle());
      RecoversByDraws(d, pf, w, nodes, log, n, s);
      assert !Followed(d, w[0], log, n, s, j);
    }
  }

  // ----- sweeps of one window -----

  /** A hop period at least as long as the way to the sink leaves one window per sweep.  The planned attacker is
      then no better than a random path attacker: it recovers message s exactly when the nodes it watches in
      the step that sends s are the first hops of the paths carrying s. */
  lemma SlowSweepRecovers(pf: Profile, w: World, nodes: set<NodeId>, len: nat, log: seq<Watch>, n: nat, s: nat)
    requires OneFlow(pf, w) && pf.strategy.Planned? && pf.n == |w[0].spec.paths|
    requires forall i :: 0 <= i < |w[0].spec.paths| ==> |w[0].spec.paths[i]| == len
    requires 3 <= len <= pf.period + 1
    requires IsRun(pf, w, nodes, log) && n < |log| && n <= w[0].sent
    ensures Recovers(pf.k, log[n].captured, s) <==> s < n && log[s].monitored == FirstHops(w[0], s)
  {
    hide IsRun;
    hide Recovers;
    hide Followed;
    hide FirstHops;
    var d := SlowPlanOf(pf, w[0].spec, len);
    RecoversByDraws(d, pf, w, nodes, log, n, s);
    if s < n {
      var g := SweepInvariant(d, pf, w, nodes, log, s);
      forall j | 0 <= j < pf.k
        ensures Followed(d, w[0], log, n, s, j) <==> w[0].spec.paths[w[0].history[s][j]][1] in log[s].monitored
      {
        FirstHopFollowed(d, w[0], log, n, s, g, j);
      }
      AllFirstHops(d, w[0], log, s, g);
    }
  }

  lemma SlowPlanOf(pf: Profile, f: FlowSpec, len: nat) returns (d: Plan)
    requires f.Valid() && f.Disjoint() && pf.n == |f.paths| && pf.k == f.k && 3 <= len <= pf.period + 1
    requires forall i :: 0 <= i < |f.paths| ==> |f.paths[i]| == len
    ensures d == Plan(pf.n, pf.k, pf.period, 1, len) && d.Fits(f) && d.Cycle() == pf.period && d.Hop(0) == 1
  {
    d := Plan(pf.n, pf.k, pf.period, 1, len);
    assert Times(0, pf.k) == 0 && Times(0, pf.period) == 0;
    assert Times(1, pf.period) == pf.period;
  }

  lemma FirstHopFollowed(d: Plan, v: View, log: seq<Watch>, n: nat, s: nat, g: Stage, j: nat)
    requires v.Valid() && d.Fits(v.spec) && d.windows == 1 && d.Cycle() == d.period && d.Hop(0) == 1
    requires s < n < |log| && s < v.sent && j < v.spec.k && AtStage(d, v.spec, log, s, g)
    ensures Followed(d, v, log, n, s, j) <==> v.spec.paths[v.history[s][j]][1] in log[s].monitored
  {
    hide DrawnBefore;
    hide Positioned;
    hide FlowSpec.Valid;
    hide FlowSpec.Disjoint;
    InWindow(d, v.spec, log, s, g);
    QuotRemOf(g.m, d.Cycle(), g.j);
    var q := v.history[s][j];
    assert |v.spec.paths[q]| == d.len;
    assert Times(0, d.period) == 0;
    assert Drawn(d, v.spec.paths, log, g.m, 0, q) <==> v.spec.paths[q][1] in log[s].monitored;
    assert CaughtBy(d, v.spec.paths, log, n, s, q, 0) <==> v.spec.paths[q][1] in log[s].monitored;
  }

  /** Watching the first hop of each path of a message means watching exactly those. */
  lemma AllFirstHops(d: Plan, v: View, log: seq<Watch>, s: nat, g: Stage)
    requires v.Valid() && d.Fits(v.spec) && d.windows == 1 && d.Hop(0) == 1 && s < v.sent
    requires AtStage(d, v.spec, log, s, g)
    ensures (forall j :: 0 <= j < v.spec.k ==> v.spec.paths[v.history[s][j]][1] in log[s].monitored) <==>
            log[s].monitored == FirstHops(v, s)
  {
    hide DrawnBefore;
    var f, c := v.spec, v.history[s];
    assert Times(0, d.k) == 0;
    assert d.Interior(1);
    CardAtHop(d, f, 1, g.cur);
    assert |log[s].monitored| == d.k;
    assert FirstHopsOf(f.paths, c, FirstHops(v, s));
    CardFirstHops(f, c, FirstHops(v, s));
    if forall j :: 0 <= j < f.k ==> f.paths[c[j]][1] in log[s].monitored {
      CardSubset(FirstHops(v, s), log[s].monitored);
    }
  }
}
