/** Which messages each attacker recovers, over every run.  The central result is `RecoversIff`: with
    one flow on internally disjoint paths, a message is recovered exactly when each of its shares was
    watched at some interior hop at the moment it was there.  The strategies' results follow. */
module Recovery {
  import opened Basics
  import opened Transport
  import opened Attack

  /** The setting of the experiments: one flow, internally node-disjoint paths, the attacker's k is
      the flow's. */
  ghost predicate OneFlow(pf: Profile, w: World) {
    && ValidWorld(w) && w.Keys == {0} && w[0].spec.Disjoint()
    && pf.period > 0 && pf.k == w[0].spec.k
  }

  /** Captured shares are exactly those exposed in some step since the attacker joined (any number of flows). */
  lemma {:induction false} CapturedSinceIff(
      pf: Profile, w: World, nodes: set<NodeId>, since: nat, log: seq<Watch>, n: nat, sh: Share)
    requires ValidWorld(w) && 0 in w && pf.period > 0 && IsRunSince(pf, w, nodes, since, log) && n < |log|
    ensures sh in log[n].captured <==> exists i :: 0 <= i < n && Exposed(w, since + i + 1, sh, log[i].monitored)
  {
    if n > 0 {
      CapturedSinceIff(pf, w, nodes, since, log, n - 1, sh);
      assert WatchStep(pf, w, nodes, since + (n - 1) + 1, log[n - 1], log[n - 1 + 1]);
    }
  }

  /** A run by time: before it joins, an attacker watches nothing. */
  ghost function Timeline(since: nat, log: seq<Watch>): (all: seq<Watch>)
    ensures |all| == since + |log|
    ensures forall i :: 0 <= i < since ==> all[i].monitored == {}
    ensures forall i :: 0 <= i < |log| ==> all[since + i] == log[i]
    ensures since == 0 ==> all == log
  {
    Repeat(START, since) + log
  }

  /** Share j of message s is watched in the step that brings it to hop h of its path. */
  ghost predicate WatchedAt(v: View, log: seq<Watch>, s: nat, j: nat, h: nat)
    requires v.Valid() && s < v.sent && j < v.spec.k
  {
    var p := v.spec.paths[v.history[s][j]];
    && 0 < h < |p| - 1
    && s + h - 1 < |log|
    && p[h] in log[s + h - 1].monitored
  }

  /** ... within the first n steps. */
  ghost predicate Caught(v: View, log: seq<Watch>, n: nat, s: nat, j: nat)
    requires v.Valid() && s < v.sent && j < v.spec.k
  {
    exists h: nat :: s + h <= n && WatchedAt(v, log, s, j, h)
  }

  /** A share is exposed in step i + 1 exactly when it is watched at the hop it is at. */
  lemma ExposedIsWatched(w: World, all: seq<Watch>, i: nat, s: nat, j: nat)
    requires ValidWorld(w) && w.Keys == {0} && i < |all| && s < w[0].sent && j < w[0].spec.k
    ensures Exposed(w, i + 1, w[0].ShareOf(s, j), all[i].monitored) <==>
            i + 1 >= s && WatchedAt(w[0], all, s, j, i + 1 - s)
  {
    var v := w[0];
    var sh := v.ShareOf(s, j);
    var p := v.spec.paths[v.history[s][j]];
    assert v.Created(sh) && v.RouteOf(sh) == p && v.spec.IsRoute(p);
  }

  /** Nothing is watched before the attacker joins. */
  lemma WatchedSince(v: View, since: nat, log: seq<Watch>, s: nat, j: nat, h: nat)
    requires v.Valid() && s < v.sent && j < v.spec.k && WatchedAt(v, Timeline(since, log), s, j, h)
    ensures h > 0 && since <= s + h - 1 < since + |log|
  {
  }

  lemma ShareCapturedIff(
      pf: Profile, w: World, nodes: set<NodeId>, since: nat, log: seq<Watch>, n: nat, s: nat, j: nat)
    requires OneFlow(pf, w) && IsRunSince(pf, w, nodes, since, log) && n < |log|
    requires s < w[0].sent && j < w[0].spec.k
    ensures w[0].ShareOf(s, j) in log[n].captured <==> Caught(w[0], Timeline(since, log), since + n, s, j)
  {
    hide IsRunSince;
    hide FlowSpec.Disjoint;
    hide FlowSpec.Valid;
    hide Exposed;
    hide WatchedAt;
    hide Timeline;
    var v, all := w[0], Timeline(since, log);
    var sh := v.ShareOf(s, j);
    CapturedSinceIff(pf, w, nodes, since, log, n, sh);
    if i :| 0 <= i < n && Exposed(w, since + i + 1, sh, log[i].monitored) {
      assert all[since + i] == log[i];
      ExposedIsWatched(w, all, since + i, s, j);
    }
    if h: nat :| s + h <= since + n && WatchedAt(v, all, s, j, h) {
      WatchedSince(v, since, log, s, j, h);
      var i := s + h - 1 - since;
      assert all[since + i] == log[i];
      ExposedIsWatched(w, all, since + i, s, j);
    }
  }

  /** Every captured share is one the flow created. */
  lemma CapturedIsCreated(pf: Profile, w: World, nodes: set<NodeId>, since: nat, log: seq<Watch>, n: nat, sh: Share)
    requires OneFlow(pf, w) && IsRunSince(pf, w, nodes, since, log) && n < |log| && sh in log[n].captured
    ensures w[0].Created(sh)
  {
    CapturedSinceIff(pf, w, nodes, since, log, n, sh);
  }

  /** Recovering a message means having captured all k of its shares. */
  lemma RecoversAll(v: View, captured: set<Share>, s: nat)
    requires v.Valid() && forall sh :: sh in captured ==> v.Created(sh)
    ensures Recovers(v.spec.k, captured, s) <==>
            s < v.sent && forall j :: 0 <= j < v.spec.k ==> v.ShareOf(s, j) in captured
  {
    var nums := ShareNums(captured, s);
    var k := v.spec.k;
    forall j | j in nums ensures j in Below(k) && s < v.sent && v.ShareOf(s, j) in captured {
      var sh :| sh in captured && sh.seqNum == s && sh.shareNum == j;
      assert sh == v.ShareOf(s, j);
    }
    CardSubset(nums, Below(k));
    if Recovers(k, captured, s) {
      assert nums == Below(k);
      assert forall j :: 0 <= j < k ==> j in nums;
    }
    if s < v.sent && forall j :: 0 <= j < k ==> v.ShareOf(s, j) in captured {
      forall j | j in Below(k) ensures j in nums {
        var sh := v.ShareOf(s, j);
        assert sh in captured && sh.seqNum == s && sh.shareNum == j;
      }
      assert nums == Below(k);
      assert 0 in nums;
    }
  }

  /** Recovery, for every strategy and every time of joining: message s has been recovered after t steps exactly when
      every one of its k shares was watched on its way, at an interior hop it had reached. */
  lemma RecoversSinceIff(pf: Profile, w: World, nodes: set<NodeId>, since: nat, log: seq<Watch>, t: nat, s: nat)
    requires OneFlow(pf, w) && IsRunSince(pf, w, nodes, since, log) && since <= t < since + |log|
    ensures var all := Timeline(since, log);
            Recovers(pf.k, all[t].captured, s) <==>
            s < w[0].sent && forall j :: 0 <= j < pf.k ==> Caught(w[0], all, t, s, j)
  {
    hide IsRunSince;
    hide FlowSpec.Disjoint;
    var v, all, n := w[0], Timeline(since, log), t - since;
    assert all[since + n] == log[n];
    forall sh | sh in log[n].captured ensures v.Created(sh) {
      CapturedIsCreated(pf, w, nodes, since, log, n, sh);
    }
    RecoversAll(v, log[n].captured, s);
    if s < v.sent {
      forall j | 0 <= j < pf.k ensures v.ShareOf(s, j) in log[n].captured <==> Caught(v, all, t, s, j) {
        ShareCapturedIff(pf, w, nodes, since, log, n, s, j);
      }
    }
  }

  /** In particular for an attacker that joins at the start. */
  lemma RecoversIff(pf: Profile, w: World, nodes: set<NodeId>, log: seq<Watch>, n: nat, s: nat)
    requires OneFlow(pf, w) && IsRun(pf, w, nodes, log) && n < |log|
    ensures Recovers(pf.k, log[n].captured, s) <==>
            s < w[0].sent && forall j :: 0 <= j < pf.k ==> Caught(w[0], log, n, s, j)
  {
    hide IsRunSince;
    hide Recovers;
    RecoversSinceIff(pf, w, nodes, 0, log, n, s);
  }

  /** An attacker that watches a superset of nodes in every step recovers a superset of messages. */
  lemma WatchingMoreRecoversMore(
      pf: Profile, log: seq<Watch>, pf2: Profile, log2: seq<Watch>, w: World, nodes: set<NodeId>, n: nat, s: nat)
    requires OneFlow(pf, w) && OneFlow(pf2, w)
    requires IsRun(pf, w, nodes, log) && IsRun(pf2, w, nodes, log2) && n < |log| && n < |log2|
    requires forall i :: 0 <= i < n ==> log[i].monitored <= log2[i].monitored
    requires Recovers(pf.k, log[n].captured, s)
    ensures Recovers(pf2.k, log2[n].captured, s)
  {
    RecoversIff(pf, w, nodes, log, n, s);
    RecoversIff(pf2, w, nodes, log2, n, s);
    forall j | 0 <= j < pf.k ensures Caught(w[0], log2, n, s, j) {
      assert Caught(w[0], log, n, s, j);
      var h: nat :| s + h <= n && WatchedAt(w[0], log, s, j, h);
      assert WatchedAt(w[0], log2, s, j, h);
    }
  }

  // ----- total attacker -----

  lemma {:induction false} TotalWatchesFirstHops(pf: Profile, w: World, nodes: set<NodeId>, log: seq<Watch>, i: nat)
    requires OneFlow(pf, w) && IsRun(pf, w, nodes, log) && pf.strategy.Total? && i < |log|
    ensures HopInRange(w[0].spec.paths, 1)
    ensures log[i].monitored == NodesAtHop(w[0].spec.paths, 1, Below(|w[0].spec.paths|))
  {
    if i > 0 {
      TotalWatchesFirstHops(pf, w, nodes, log, i - 1);
      assert WatchStep(pf, w, nodes, i - 1 + 1, log[i - 1], log[i - 1 + 1]);
    }
  }

  /** The total attacker recovers every message sent, except those with a share on a path that
      goes straight from source to sink. */
  lemma TotalRecovers(pf: Profile, w: World, nodes: set<NodeId>, log: seq<Watch>, n: nat, s: nat)
    requires OneFlow(pf, w) && IsRun(pf, w, nodes, log) && pf.strategy.Total?
    requires n < |log| && n <= w[0].sent && s < n
    ensures Recovers(pf.k, log[n].captured, s) <==>
            forall j :: 0 <= j < pf.k ==> |w[0].spec.paths[w[0].history[s][j]]| >= 3
  {
    var v := w[0];
    RecoversIff(pf, w, nodes, log, n, s);
    TotalWatchesFirstHops(pf, w, nodes, log, s);
    forall j | 0 <= j < pf.k
      ensures |v.spec.paths[v.history[s][j]]| >= 3 <==> Caught(v, log, n, s, j)
    {
      var p := v.spec.paths[v.history[s][j]];
      if |p| >= 3 {
        assert p[1] in log[s].monitored by {
          assert v.history[s][j] in Below(|v.spec.paths|);
        }
        assert WatchedAt(v, log, s, j, 1);
      }
    }
  }

  // ----- random path attacker -----

  lemma {:induction false} RandomPathWatchesFirstHops(
      pf: Profile, w: World, nodes: set<NodeId>, log: seq<Watch>, i: nat)
    requires OneFlow(pf, w) && IsRun(pf, w, nodes, log) && pf.strategy.RandomPath? && i < |log|
    ensures log[i].monitored == {} || SampledFirstHops(w[0].spec.paths, pf.k, log[i].monitored)
  {
    if i > 0 {
      RandomPathWatchesFirstHops(pf, w, nodes, log, i - 1);
      assert WatchStep(pf, w, nodes, i - 1 + 1, log[i - 1], log[i - 1 + 1]);
    }
  }

  /** The first hops of the paths that carry message s. */
  ghost function FirstHops(v: View, s: nat): set<NodeId>
    requires v.Valid() && s < v.sent
  {
    set j | 0 <= j < v.spec.k :: v.spec.paths[v.history[s][j]][1]
  }

  /** Different paths have different first hops, wherever the first hop is an interior node. */
  lemma FirstHopsDiffer(f: FlowSpec, a: nat, b: nat)
    requires f.Valid() && f.Disjoint() && a < |f.paths| && b < |f.paths|
    requires |f.paths[a]| > 2 && f.paths[a][1] == f.paths[b][1]
    ensures a == b
  {
    assert f.IsRoute(f.paths[b]);
    assert Crosses(f.paths, a, 1, b, 1);
  }

  /** Taking the last path out of a sample takes its first hop out of the watched set. */
  lemma LastFirstHop(f: FlowSpec, c: seq<nat>, m: set<NodeId>) returns (m': set<NodeId>)
    requires f.Valid() && f.Disjoint() && Distinct(c) && FirstHopsOf(f.paths, c, m) && c != []
    ensures FirstHopsOf(f.paths, c[..|c| - 1], m')
    ensures f.paths[c[|c| - 1]][1] !in m' && m == m' + {f.paths[c[|c| - 1]][1]}
  {
    var n := |c| - 1;
    var rest := c[..n];
    m' := set i | 0 <= i < |rest| :: f.paths[rest[i]][1];
    assert forall i :: 0 <= i < n ==> rest[i] == c[i];
    assert m == m' + {f.paths[c[n]][1]};
    if f.paths[c[n]][1] in m' {
      var i :| 0 <= i < |rest| && f.paths[rest[i]][1] == f.paths[c[n]][1];
      FirstHopsDiffer(f, c[n], c[i]);
      assert false;
    }
  }

  lemma {:induction false} CardFirstHops(f: FlowSpec, c: seq<nat>, m: set<NodeId>)
    requires f.Valid() && f.Disjoint() && Distinct(c) && FirstHopsOf(f.paths, c, m)
    ensures |m| == |c|
    decreases |c|
  {
    if c == [] {
      assert m == {};
    } else {
      var m' := LastFirstHop(f, c, m);
      CardFirstHops(f, c[..|c| - 1], m');
    }
  }

  /** The random path attacker recovers message s exactly when the nodes it watches in the step
      that sends s are the first hops of the paths carrying s.  This holds for every hop period. */
  lemma RandomPathRecovers(pf: Profile, w: World, nodes: set<NodeId>, log: seq<Watch>, n: nat, s: nat)
    requires OneFlow(pf, w) && IsRun(pf, w, nodes, log) && pf.strategy.RandomPath?
    requires n < |log| && n <= w[0].sent && s < n
    ensures Recovers(pf.k, log[n].captured, s) <==> log[s].monitored == FirstHops(w[0], s)
  {
    var v := w[0];
    RecoversIff(pf, w, nodes, log, n, s);
    forall j, h | 0 <= j < pf.k && WatchedAt(v, log, s, j, h) && s + h <= n
      ensures h == 1
    {
      RandomPathWatchesFirstHops(pf, w, nodes, log, s + h - 1);
      FirstHopOnly(pf, v, log[s + h - 1].monitored, v.history[s][j], h);
    }
    if Recovers(pf.k, log[n].captured, s) {
      forall j | 0 <= j < pf.k ensures v.spec.paths[v.history[s][j]][1] in log[s].monitored {
        assert Caught(v, log, n, s, j);
        var h: nat :| s + h <= n && WatchedAt(v, log, s, j, h);
      }
      assert FirstHops(v, s) <= log[s].monitored;
      RandomPathWatchesFirstHops(pf, w, nodes, log, s);
      forall j | 0 <= j < pf.k ensures |v.spec.paths[v.history[s][j]]| > 2 {
        assert Caught(v, log, n, s, j);
        var h: nat :| s + h <= n && WatchedAt(v, log, s, j, h);
      }
      assert FirstHopsOf(v.spec.paths, v.history[s], FirstHops(v, s));
      CardFirstHops(v.spec, v.history[s], FirstHops(v, s));
      assert v.spec.paths[v.history[s][0]][1] in FirstHops(v, s);
      var c :| IsChoice(c, |v.spec.paths|, pf.k) && FirstHopsOf(v.spec.paths, c, log[s].monitored);
      CardFirstHops(v.spec, c, log[s].monitored);
      CardSubset(FirstHops(v, s), log[s].monitored);
    }
    if log[s].monitored == FirstHops(v, s) {
      RandomPathWatchesFirstHops(pf, w, nodes, log, s);
      assert v.spec.paths[v.history[s][0]][1] in FirstHops(v, s);
      forall j | 0 <= j < pf.k ensures Caught(v, log, n, s, j) {
        var q := v.history[s][j];
        assert v.spec.paths[q][1] in log[s].monitored;
        FirstHopIsInterior(pf, v, log[s].monitored, q);
        assert WatchedAt(v, log, s, j, 1);
      }
    }
  }

  lemma FirstHopOnly(pf: Profile, v: View, m: set<NodeId>, q: nat, h: nat)
    requires v.Valid() && v.spec.Disjoint() && q < |v.spec.paths| && 0 < h < |v.spec.paths[q]| - 1
    requires m == {} || SampledFirstHops(v.spec.paths, pf.k, m)
    requires v.spec.paths[q][h] in m
    ensures h == 1
  {
    var c :| IsChoice(c, |v.spec.paths|, pf.k) && FirstHopsOf(v.spec.paths, c, m);
    var i :| 0 <= i < |c| && v.spec.paths[c[i]][1] == v.spec.paths[q][h];
    assert Crosses(v.spec.paths, q, h, c[i], 1);
    assert v.spec.IsRoute(v.spec.paths[q]);
  }

  lemma FirstHopIsInterior(pf: Profile, v: View, m: set<NodeId>, q: nat)
    requires v.Valid() && v.spec.Disjoint() && q < |v.spec.paths|
    requires m == {} || SampledFirstHops(v.spec.paths, pf.k, m)
    requires v.spec.paths[q][1] in m
    ensures |v.spec.paths[q]| > 2
  {
    var c :| IsChoice(c, |v.spec.paths|, pf.k) && FirstHopsOf(v.spec.paths, c, m);
    var i :| 0 <= i < |c| && v.spec.paths[c[i]][1] == v.spec.paths[q][1];
    FirstHopsDiffer(v.spec, c[i], q);
  }

  // ----- ideal attacker -----

  lemma {:induction false} IdealWatchesInteriors(pf: Profile, w: World, nodes: set<NodeId>, log: seq<Watch>, i: nat)
    requires OneFlow(pf, w) && IsRun(pf, w, nodes, log) && pf.strategy.IdealPath? && i < |log|
    ensures log[i].monitored == {} || SampledInteriors(w[0].spec.paths, pf.k, log[i].monitored)
  {
    if i > 0 {
      IdealWatchesInteriors(pf, w, nodes, log, i - 1);
      assert WatchStep(pf, w, nodes, i - 1 + 1, log[i - 1], log[i - 1 + 1]);
    }
  }

  /** Watching one interior node of a path, the ideal attacker watches all of them. */
  lemma IdealIsAllOrNothing(pf: Profile, w: World, nodes: set<NodeId>, log: seq<Watch>, i: nat, q: nat, a: nat, b: nat)
    requires OneFlow(pf, w) && IsRun(pf, w, nodes, log) && pf.strategy.IdealPath? && i < |log|
    requires q < |w[0].spec.paths| && 0 < a < |w[0].spec.paths[q]| - 1 && 0 < b < |w[0].spec.paths[q]| - 1
    ensures w[0].spec.paths[q][a] in log[i].monitored <==> w[0].spec.paths[q][b] in log[i].monitored
  {
    var paths, m := w[0].spec.paths, log[i].monitored;
    IdealWatchesInteriors(pf, w, nodes, log, i);
    if m != {} {
      var c :| IsChoice(c, |paths|, pf.k) && InteriorsOf(paths, c, m);
      forall d, e | (d == a && e == b) || (d == b && e == a)
        ensures paths[q][d] in m ==> paths[q][e] in m
      {
        if paths[q][d] in m {
          var z, y :| 0 <= z < |c| && 0 < y < |paths[c[z]]| - 1 && paths[c[z]][y] == paths[q][d];
          assert Crosses(w[0].spec.paths, q, d, c[z], y);
        }
      }
    }
  }

  /** The path of share j of message s is watched (which shows at its first hop) in some step, among the
      first n, that has the share on an interior node. */
  ghost predicate SampledInTransit(v: View, log: seq<Watch>, n: nat, s: nat, j: nat)
    requires v.Valid() && s < v.sent && j < v.spec.k && n <= |log|
  {
    var p := v.spec.paths[v.history[s][j]];
    exists i :: s <= i < n && i - s < |p| - 2 && p[1] in log[i].monitored
  }

  /** The ideal attacker recovers message s exactly when each of its paths was sampled in some step
      in which the share was on an interior node. */
  lemma IdealRecovers(pf: Profile, w: World, nodes: set<NodeId>, log: seq<Watch>, n: nat, s: nat)
    requires OneFlow(pf, w) && IsRun(pf, w, nodes, log) && pf.strategy.IdealPath?
    requires n < |log| && n <= w[0].sent && s < n
    ensures Recovers(pf.k, log[n].captured, s) <==>
            forall j :: 0 <= j < pf.k ==> SampledInTransit(w[0], log, n, s, j)
  {
    var v := w[0];
    RecoversIff(pf, w, nodes, log, n, s);
    forall j | 0 <= j < pf.k
      ensures Caught(v, log, n, s, j) <==> SampledInTransit(v, log, n, s, j)
    {
      var q := v.history[s][j];
      var p := v.spec.paths[q];
      if h: nat :| s + h <= n && WatchedAt(v, log, s, j, h) {
        IdealIsAllOrNothing(pf, w, nodes, log, s + h - 1, q, h, 1);
        assert p[1] in log[s + h - 1].monitored;
      }
      if i :| s <= i < n && i - s < |p| - 2 && p[1] in log[i].monitored {
        IdealIsAllOrNothing(pf, w, nodes, log, i, q, 1, i - s + 1);
        assert WatchedAt(v, log, s, j, i - s + 1);
      }
    }
  }

  // ----- fixed attacker -----

  lemma {:induction false} FixedNeverMoves(pf: Profile, w: World, nodes: set<NodeId>, log: seq<Watch>, i: nat)
    requires OneFlow(pf, w) && IsRun(pf, w, nodes, log) && pf.strategy.Fixed? && i < |log|
    ensures log[i].prepared && log[i].monitored == log[0].monitored
  {
    if i > 0 {
      FixedNeverMoves(pf, w, nodes, log, i - 1);
      assert WatchStep(pf, w, nodes, i - 1 + 1, log[i - 1], log[i - 1 + 1]);
    }
  }

  /** On a path of the fixed sample the attacker watches the sampled hop and nothing else; on other
      paths it watches no interior node. */
  lemma FixedWatches(f: FlowSpec, c: seq<nat>, hops: seq<nat>, m: set<NodeId>, q: nat, h: nat)
    requires f.Valid() && f.Disjoint() && Distinct(c) && OnePerPath(f.paths, c, hops, m)
    requires q < |f.paths| && 0 < h < |f.paths[q]| - 1
    ensures f.paths[q][h] in m <==> exists i :: 0 <= i < |c| && c[i] == q && hops[i] == h
  {
    if f.paths[q][h] in m {
      var i :| 0 <= i < |c| && f.paths[c[i]][hops[i]] == f.paths[q][h];
      assert Crosses(f.paths, q, h, c[i], hops[i]);
      assert f.IsRoute(f.paths[q]);
    }
  }

  /** The fixed attacker, having sampled paths c and hop hops[i] on path c[i], recovers message s
      within n steps exactly when s travels on the paths c and has reached every sampled hop. */
  lemma FixedRecovers(
      pf: Profile, w: World, nodes: set<NodeId>, log: seq<Watch>, n: nat, s: nat, c: seq<nat>, hops: seq<nat>)
    requires OneFlow(pf, w) && IsRun(pf, w, nodes, log) && pf.strategy.Fixed?
    requires n < |log| && n <= w[0].sent && s < n
    requires IsChoice(c, |w[0].spec.paths|, pf.k) && OnePerPath(w[0].spec.paths, c, hops, log[0].monitored)
    ensures Recovers(pf.k, log[n].captured, s) <==>
            && Members(w[0].history[s]) == Members(c)
            && forall i :: 0 <= i < pf.k ==> s + hops[i] <= n
  {
    var v, m := w[0], log[0].monitored;
    RecoversIff(pf, w, nodes, log, n, s);
    CardMembers(c);
    CardMembers(v.history[s]);
    forall j, h | 0 <= j < pf.k && 0 < h < |v.spec.paths[v.history[s][j]]| - 1 && s + h <= n
      ensures WatchedAt(v, log, s, j, h) <==> exists i :: 0 <= i < pf.k && c[i] == v.history[s][j] && hops[i] == h
    {
      FixedNeverMoves(pf, w, nodes, log, s + h - 1);
      FixedWatches(v.spec, c, hops, m, v.history[s][j], h);
    }
    if Recovers(pf.k, log[n].captured, s) {
      forall q | q in Members(v.history[s]) ensures q in Members(c) {
        var j :| 0 <= j < pf.k && v.history[s][j] == q;
        assert Caught(v, log, n, s, j);
        var h: nat :| s + h <= n && WatchedAt(v, log, s, j, h);
      }
      CardSubset(Members(v.history[s]), Members(c));
      forall i | 0 <= i < pf.k ensures s + hops[i] <= n {
        assert c[i] in Members(v.history[s]);
        var j :| 0 <= j < pf.k && v.history[s][j] == c[i];
        assert Caught(v, log, n, s, j);
        var h: nat :| s + h <= n && WatchedAt(v, log, s, j, h);
        var i' :| 0 <= i' < pf.k && c[i'] == v.history[s][j] && hops[i'] == h;
        assert i' == i;
      }
    }
    if Members(v.history[s]) == Members(c) && forall i :: 0 <= i < pf.k ==> s + hops[i] <= n {
      forall j | 0 <= j < pf.k ensures Caught(v, log, n, s, j) {
        assert v.history[s][j] in Members(c);
        var i :| 0 <= i < |c| && c[i] == v.history[s][j];
        assert WatchedAt(v, log, s, j, hops[i]);
      }
    }
  }
}
