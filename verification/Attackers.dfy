/** The attacker object.  One class covers the strategies; `Select` dispatches on the profile as method
    lookup does.  The ghost log records the state after every step and `Valid` says it is a run of the
    state machine in Attack, so every theorem about runs is a theorem about these objects. */
module Attackers {
  import opened Basics
  import opened Transport
  import opened Attack
  import opened Network

  /** A random subset of the given size. */
  method SampleSet(s: set<NodeId>, k: nat) returns (r: set<NodeId>)
    requires k <= |s|
    ensures r <= s && |r| == k
  {
    var all := Enumerate(s);
    var c := ChooseDistinct(|all|, k);
    var picked := seq(k, i requires 0 <= i < k => all[c[i]]);
    r := set x | x in picked;
    assert Distinct(picked);
    CardMembers(picked);
    assert r == Members(picked);
    forall x | x in r ensures x in s {
      assert x in Members(all);
    }
  }

  /** The paths, among the first n, that have an interior. */
  ghost function EligibleBelow(paths: seq<Path>, n: nat): set<nat>
    requires n <= |paths|
  {
    set q | q in Below(n) && |paths[q]| > 2
  }

  ghost function Eligible(paths: seq<Path>): set<nat> {
    EligibleBelow(paths, |paths|)
  }

  lemma EligibleNone(paths: seq<Path>)
    ensures EligibleBelow(paths, 0) == {}
  {
  }

  lemma EligibleStep(paths: seq<Path>, n: nat)
    requires n < |paths|
    ensures EligibleBelow(paths, n + 1) == EligibleBelow(paths, n) + if |paths[n]| > 2 then {n} else {}
    ensures n !in EligibleBelow(paths, n)
  {
  }

  lemma EligibleCount(paths: seq<Path>, n: nat)
    requires n < |paths|
    ensures |EligibleBelow(paths, n + 1)| == |EligibleBelow(paths, n)| + if |paths[n]| > 2 then 1 else 0
  {
    EligibleStep(paths, n);
  }

  /** What numpy's sampling and the indexing of paths demand of an attacker's target; the original
      raises an exception otherwise. */
  ghost predicate CanAttack(pf: Profile, target: FlowSpec, nodes: set<NodeId>) {
    && target.Valid()
    && (forall q, a :: 0 <= q < |target.paths| && 0 <= a < |target.paths[q]| ==> target.paths[q][a] in nodes)
    && pf.period > 0
    && match pf.strategy
       case RandomNode => pf.k <= |nodes - {target.source, target.sink}|
       case RandomPath => pf.k <= |Eligible(target.paths)|
       case IdealPath => pf.k <= |target.paths|
       case OneNodePerPath => pf.k <= |Eligible(target.paths)|
       case Fixed => pf.k <= |Eligible(target.paths)|
       case Planned => forall q :: 0 <= q < |target.paths| ==> |target.paths[q]| == |target.paths[0]|
       case Total => true
  }

  /** First hops of the paths that have an interior, with the paths they come from. */
  method FirstHopCollection(paths: seq<Path>) returns (collection: seq<NodeId>, ghost from: seq<nat>)
    ensures |from| == |collection| == |Eligible(paths)| && Distinct(from)
    ensures forall i :: 0 <= i < |from| ==>
              from[i] < |paths| && |paths[from[i]]| > 2 && collection[i] == paths[from[i]][1]
  {
    hide EligibleBelow;
    collection, from := [], [];
    EligibleNone(paths);
    for q := 0 to |paths|
      invariant |from| == |collection| && Distinct(from) && Members(from) == EligibleBelow(paths, q)
      invariant forall i :: 0 <= i < |from| ==>
                from[i] < |paths| && |paths[from[i]]| > 2 && collection[i] == paths[from[i]][1]
    {
      EligibleStep(paths, q);
      if |paths[q]| > 2 {
        assert q !in Members(from);
        collection, from := collection + [paths[q][1]], from + [q];
        MembersGrow(from, |from| - 1);
        assert from[..|from| - 1] + [q] == from == from[..|from|];
      }
    }
    CardMembers(from);
  }

  /** All nodes of m are on the paths. */
  ghost predicate OnPaths(paths: seq<Path>, m: set<NodeId>) {
    forall x :: x in m ==> FirstHolder(paths, x) < |paths|
  }

  lemma OnPathsInside(target: FlowSpec, nodes: set<NodeId>, m: set<NodeId>)
    requires OnPaths(target.paths, m)
    requires forall q, a :: 0 <= q < |target.paths| && 0 <= a < |target.paths[q]| ==> target.paths[q][a] in nodes
    ensures m <= nodes
  {
    forall x | x in m ensures x in nodes {
      var q := FirstHolder(target.paths, x);
      var a :| 0 <= a < |target.paths[q]| && target.paths[q][a] == x;
    }
  }

  lemma HolderExists(paths: seq<Path>, q: nat, a: nat)
    requires q < |paths| && a < |paths[q]|
    ensures FirstHolder(paths, paths[q][a]) <= q
  {
    assert paths[q][a] in paths[q];
  }

  lemma CandidatesOnPaths(paths: seq<Path>, h: nat, seen: set<nat>, m: set<NodeId>)
    requires HopInRange(paths, h) && m <= Candidates(paths, h, seen)
    ensures OnPaths(paths, m)
  {
    forall x | x in m ensures FirstHolder(paths, x) < |paths| {
      var q :| q in Below(|paths|) && paths[q][h] == x;
      HolderExists(paths, q, h);
    }
  }

  lemma NothingGained(w: World, t: nat)
    requires ValidWorld(w)
    ensures Distinct<Share>([]) && forall sh :: !Exposed(w, t, sh, {})
  {
  }

  /** Capturing at one more node, x. */
  lemma CaptureStep(
      w: World, t: nat, x: NodeId, resident: set<Share>, shares: seq<Share>, done: set<NodeId>, gained: seq<Share>)
    requires ValidWorld(w) && x !in done && Distinct(gained) && Distinct(shares)
    requires forall sh :: sh in resident <==> PresentIn(w, t, sh, x)
    requires forall sh :: sh in shares <==> sh in resident && sh.source != x && sh.sink != x
    requires forall sh :: sh in gained <==> Exposed(w, t, sh, done)
    ensures Distinct(gained + shares)
    ensures forall sh :: sh in gained + shares <==> Exposed(w, t, sh, done + {x})
  {
    assert forall sh :: sh in shares <==> Exposed(w, t, sh, {x});
    DistinctConcat(gained, shares);
  }

  method SampleFirstHops(paths: seq<Path>, k: nat) returns (m: set<NodeId>)
    requires k <= |Eligible(paths)|
    ensures SampledFirstHops(paths, k, m) && OnPaths(paths, m)
  {
    var collection, from := FirstHopCollection(paths);
    var c := ChooseDistinct(|collection|, k);
    m := set i | 0 <= i < k :: collection[c[i]];
    ghost var chosen := seq(k, i requires 0 <= i < k => from[c[i]]);
    assert IsChoice(chosen, |paths|, k);
    assert forall i :: 0 <= i < k ==> collection[c[i]] == paths[chosen[i]][1];
    assert m == set i | 0 <= i < |chosen| :: paths[chosen[i]][1];
    assert FirstHopsOf(paths, chosen, m);
    forall x | x in m ensures FirstHolder(paths, x) < |paths| {
      var i :| 0 <= i < k && paths[chosen[i]][1] == x;
      HolderExists(paths, chosen[i], 1);
    }
  }

  method SampleInteriors(paths: seq<Path>, k: nat) returns (m: set<NodeId>)
    requires k <= |paths|
    ensures SampledInteriors(paths, k, m) && OnPaths(paths, m)
  {
    var c := ChooseDistinct(|paths|, k);
    m := set i, a | 0 <= i < k && 0 < a < |paths[c[i]]| - 1 :: paths[c[i]][a];
    assert InteriorsOf(paths, c, m);
    forall x | x in m ensures FirstHolder(paths, x) < |paths| {
      var i, a :| 0 <= i < k && 0 < a < |paths[c[i]]| - 1 && paths[c[i]][a] == x;
      HolderExists(paths, c[i], a);
    }
  }

  /** A sample of k paths that have an interior.  (Drawing a node from a path without one raises an exception; the
      model follows the runs in which none is drawn.) */
  method ChooseInside(paths: seq<Path>, k: nat) returns (c: seq<nat>)
    requires k <= |Eligible(paths)|
    ensures IsChoice(c, |paths|, k) && forall i :: 0 <= i < k ==> |paths[c[i]]| > 2
  {
    hide EligibleBelow;
    c := [];
    EligibleNone(paths);
    for q := 0 to |paths|
      invariant Distinct(c) && forall i :: 0 <= i < |c| ==> c[i] < q && |paths[c[i]]| > 2
      invariant |c| == if |EligibleBelow(paths, q)| <= k then |EligibleBelow(paths, q)| else k
    {
      EligibleCount(paths, q);
      if |paths[q]| > 2 && |c| < k {
        c := c + [q];
      }
    }
  }

  method SampleOnePerPath(paths: seq<Path>, k: nat) returns (m: set<NodeId>)
    requires k <= |Eligible(paths)|
    ensures SampledOnePerPath(paths, k, m) && OnPaths(paths, m)
  {
    var c := ChooseInside(paths, k);
    m := {};
    ghost var hops: seq<nat> := [];
    for i := 0 to k
      invariant |hops| == i
      invariant forall z :: 0 <= z < i ==> 0 < hops[z] < |paths[c[z]]| - 1
      invariant m == set z | 0 <= z < i :: paths[c[z]][hops[z]]
    {
      var p := paths[c[i]];
      var one := ChooseDistinct(|p| - 2, 1);
      m := m + {p[1..|p| - 1][one[0]]};
      hops := hops + [one[0] + 1];
    }
    assert OnePerPath(paths, c, hops, m);
    forall x | x in m ensures FirstHolder(paths, x) < |paths| {
      var i :| 0 <= i < k && paths[c[i]][hops[i]] == x;
      HolderExists(paths, c[i], hops[i]);
    }
  }

  /** Capturing and then selecting make a step of the state machine. */
  lemma StepOf(pf: Profile, w: World, nodes: set<NodeId>, t: nat, a: Watch, mid: Watch, b: Watch)
    requires ValidWorld(w) && 0 in w && pf.period > 0
    requires forall sh :: sh in mid.captured <==> sh in a.captured || Exposed(w, t, sh, a.monitored)
    requires mid == Noted(pf, w[0].spec.paths, a).(captured := mid.captured)
    requires Selects(pf, w[0].spec, nodes, t, mid, b) && b.captured == mid.captured
    ensures WatchStep(pf, w, nodes, t, a, b)
  {
  }

  lemma NotedKeeps(pf: Profile, paths: seq<Path>, a: Watch)
    ensures Noted(pf, paths, a).monitored == a.monitored && Noted(pf, paths, a).captured == a.captured
  {
  }

  class Attacker {
    const profile: Profile
    /** The number of steps after which it joins the simulation. */
    ghost const since: nat
    var monitored: set<NodeId>
    var captured: seq<Share>
    var hopCount: nat
    var prepared: bool
    var hopIndex: nat
    var monitoredPaths: set<nat>
    /** The state after each step since then, beginning with the state after creation. */
    ghost var log: seq<Watch>

    ghost function State(): Watch
      reads this
    {
      Watch(monitored, Members(captured), hopCount, prepared, hopIndex, monitoredPaths)
    }

    ghost predicate Valid(w: World, nodes: set<NodeId>)
      reads this
    {
      && ValidWorld(w) && 0 in w
      && profile.period > 0 && CanAttack(profile, w[0].spec, nodes)
      && |log| > 0 && IsRunSince(profile, w, nodes, since, log) && log[|log| - 1] == State()
      && OnTarget(w[0].spec, nodes)
    }

    /** The monitored nodes exist; the planned attacker's are on the target's paths. */
    ghost predicate OnTarget(target: FlowSpec, nodes: set<NodeId>)
      reads this
    {
      && monitored <= nodes
      && (profile.strategy.Planned? ==> OnPaths(target.paths, monitored))
    }

    /** An attacker that is to join the simulation after `since` steps. */
    constructor (profile: Profile, target: FlowSpec, nodes: set<NodeId>, ghost w: World, ghost since: nat)
      requires CanAttack(profile, target, nodes)
      requires ValidWorld(w) && 0 in w && w[0].spec == target
      ensures this.profile == profile && this.since == since && Valid(w, nodes) && |log| == 1
    {
      this.profile := profile;
      this.since := since;
      monitored, captured, hopCount, prepared, hopIndex, monitoredPaths := {}, [], 0, false, 1, {};
      log := [];
      new;
      assert State() == START;
      Select(nodes, target, CreationTime(profile.strategy));
      log := [State()];
    }

    /** Captures the shares passing through the monitored nodes. */
    method Monitor(nodes: map<NodeId, Node>, target: FlowSpec, ghost w: World, ghost t: nat)
      requires ValidWorld(w) && OnTarget(target, nodes.Keys)
      requires forall x :: x in nodes ==> nodes[x].id == x
      requires forall x, sh :: x in nodes ==> (sh in nodes[x].resident <==> PresentIn(w, t, sh, x))
      modifies this
      ensures State() == Noted(profile, target.paths, old(State())).(captured := Members(captured))
      ensures forall sh :: sh in captured <==> sh in old(captured) || Exposed(w, t, sh, old(monitored))
      ensures old(captured) <= captured && Distinct(captured[|old(captured)|..])
      ensures log == old(log)
    {
      hide Exposed;
      hide PresentIn;
      hide FirstHolder;
      hide Distinct;
      var rest := monitored;
      ghost var gained: seq<Share> := [];
      NothingGained(w, t);
      assert monitored - rest == {};
      while rest != {}
        invariant rest <= monitored == old(monitored)
        invariant hopCount == old(hopCount) && prepared == old(prepared) && hopIndex == old(hopIndex) && log == old(log)
        invariant captured == old(captured) + gained && Distinct(gained)
        invariant forall sh :: sh in gained <==> Exposed(w, t, sh, monitored - rest)
        invariant monitoredPaths == if profile.strategy.Planned?
                    then old(monitoredPaths) + set x | x in monitored - rest :: FirstHolder(target.paths, x)
                    else old(monitoredPaths)
        decreases rest
      {
        var x :| x in rest;
        var shares := CaptureShares(nodes[x], target);
        CaptureStep(w, t, x, nodes[x].resident, shares, monitored - rest, gained);
        assert monitored - (rest - {x}) == (monitored - rest) + {x};
        gained := gained + shares;
        rest := rest - {x};
      }
      assert monitored - rest == monitored;
      assert captured[|old(captured)|..] == gained;
    }

    method CaptureShares(node: Node, target: FlowSpec) returns (shares: seq<Share>)
      requires profile.strategy.Planned? ==> FirstHolder(target.paths, node.id) < |target.paths|
      modifies this
      ensures Distinct(shares)
      ensures forall sh :: sh in shares <==> sh in node.resident && sh.source != node.id && sh.sink != node.id
      ensures captured == old(captured) + shares
      ensures monitored == old(monitored) && hopCount == old(hopCount) && prepared == old(prepared)
      ensures hopIndex == old(hopIndex) && log == old(log)
      ensures monitoredPaths == if profile.strategy.Planned?
                then old(monitoredPaths) + {FirstHolder(target.paths, node.id)} else old(monitoredPaths)
    {
      shares := node.VulnerableShares();
      if profile.strategy.Planned? {
        monitoredPaths := monitoredPaths + {FirstHolder(target.paths, node.id)};
      }
      captured := captured + shares;
    }

    /** Re-selects the monitored nodes. */
    method Select(nodes: set<NodeId>, target: FlowSpec, time: nat)
      requires CanAttack(profile, target, nodes) && OnTarget(target, nodes)
      modifies this
      ensures Selects(profile, target, nodes, time, old(State()), State())
      ensures captured == old(captured) && OnTarget(target, nodes) && log == old(log)
    {
      hide SampledFirstHops;
      hide SampledInteriors;
      hide SampledOnePerPath;
      hide PlannedSelects;
      hide FirstHolder;
      hide OnPaths;
      hide BitAnd;
      match profile.strategy {
        case RandomNode =>
          prepared := true;
          if time % profile.period == 0 {
            monitored := SampleSet(nodes - {target.source, target.sink}, profile.k);
            hopCount := hopCount + 1;
          }
        case RandomPath =>
          prepared := true;
          if time % profile.period == 0 {
            monitored := SampleFirstHops(target.paths, profile.k);
            OnPathsInside(target, nodes, monitored);
            hopCount := hopCount + 1;
          }
        case IdealPath =>
          prepared := true;
          if time % profile.period == 0 {
            monitored := SampleInteriors(target.paths, profile.k);
            OnPathsInside(target, nodes, monitored);
            hopCount := hopCount + 1;
          }
        case OneNodePerPath =>
          prepared := true;
          if BitAnd(time, profile.period) == 0 {
            monitored := SampleOnePerPath(target.paths, profile.k);
            OnPathsInside(target, nodes, monitored);
            hopCount := hopCount + 1;
          }
        case Fixed =>
          if !prepared {
            prepared := true;
            monitored := SampleOnePerPath(target.paths, profile.k);
            OnPathsInside(target, nodes, monitored);
            hopCount := 1;
          }
        case Planned =>
          SelectPlanned(target, time);
          OnPathsInside(target, nodes, monitored);
        case Total =>
          if monitored == {} {
            assert forall q :: 0 <= q < |target.paths| ==> target.IsRoute(target.paths[q]);
            monitored := NodesAtHop(target.paths, 1, Below(|target.paths|));
          }
      }
    }

    lemma HasTarget(w: World, nodes: set<NodeId>)
      requires Valid(w, nodes)
      ensures 0 in w && ValidWorld(w) && |log| > 0
    {
    }

    /** One simulation step of this attacker, the n-th: capture, then re-select.  The world may have
        grown from w0 to w since the previous step. */
    method Observe(nodes: map<NodeId, Node>, target: FlowSpec, time: nat, ghost w0: World, ghost w: World)
      requires Valid(w0, nodes.Keys) && ValidWorld(w) && target == w0[0].spec
      requires since + |log| == time && Continues(w0, w, time - 1)
      requires forall x :: x in nodes ==> nodes[x].id == x
      requires forall x, sh :: x in nodes ==> (sh in nodes[x].resident <==> PresentIn(w, time, sh, x))
      modifies this
      ensures Valid(w, nodes.Keys) && log == old(log) + [State()]
    {
      hide Selects;
      hide Exposed;
      hide View.Valid;
      hide CanAttack;
      hide IsRunSince;
      hide WatchStep;
      hide Noted;
      hide FirstHolder;
      ghost var before := State();
      RunIsStable(profile, w0, w, nodes.Keys, since, log);
      NotedKeeps(profile, target.paths, before);
      Monitor(nodes, target, w, time);
      ghost var mid := State();
      Select(nodes.Keys, target, time);
      StepOf(profile, w, nodes.Keys, time, before, mid, State());
      RunExtends(profile, w, nodes.Keys, since, log, State());
      log := log + [State()];
    }

    method SelectPlanned(target: FlowSpec, time: nat)
      requires target.Valid() && profile.period > 0
      requires forall q :: 0 <= q < |target.paths| ==> |target.paths[q]| == |target.paths[0]|
      requires OnPaths(target.paths, monitored)
      modifies this
      ensures PlannedSelects(profile, target.paths, time % profile.period == 0, old(State()), State())
      ensures captured == old(captured) && log == old(log)
      ensures OnPaths(target.paths, monitored)
    {
      hide OnPaths;
      hide Candidates;
      var paths := target.paths;
      if time % profile.period == 0 {
        if PastAllPaths(paths, hopIndex) || |monitoredPaths| == profile.n {
          hopIndex := 1;
          monitoredPaths := {};
        }
        assert target.IsRoute(paths[0]);
        assert HopInRange(paths, hopIndex);
        var possible := Candidates(paths, hopIndex, monitoredPaths);
        if |possible| <= profile.k {
          monitored := possible;
        } else {
          monitored := SampleSet(possible, profile.k);
        }
        CandidatesOnPaths(paths, hopIndex, monitoredPaths, monitored);
      }
      hopIndex := hopIndex + 1;
    }
  }
}
