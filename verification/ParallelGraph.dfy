/** The substrate of the experiments: N parallel chains of L nodes between a source and a sink.  The
    builder is proved to lay the chains out as intended, and in such a layout every simple source-sink
    path is the source, one whole chain, then the sink. */
module ParallelGraph {
  import opened Basics
  import opened Products

  /** An undirected edge. */
  type Link = (NodeId, NodeId)

  function LinkOf(u: NodeId, v: NodeId): Link {
    if u <= v then (u, v) else (v, u)
  }

  /** The h-th link of a path. */
  function LinkAt(p: Path, h: nat): Link
    requires h + 1 < |p|
  {
    LinkOf(p[h], p[h + 1])
  }

  lemma LinkEnds(u: NodeId, v: NodeId, x: NodeId, y: NodeId)
    requires LinkOf(u, v) == LinkOf(x, y)
    ensures (u == x && v == y) || (u == y && v == x)
  {
  }

  /** Chains of l nodes each, all nodes different, and a source and a sink outside them. */
  ghost predicate Layout(chains: seq<Path>, l: nat, source: NodeId, sink: NodeId) {
    && l >= 1 && source != sink
    && (forall i :: 0 <= i < |chains| ==> |chains[i]| == l && source !in chains[i] && sink !in chains[i])
    && AllDifferent(chains)
  }

  ghost predicate AllDifferent(chains: seq<Path>) {
    forall i, a, j, b :: Same(chains, i, a, j, b) ==> i == j && a == b
  }

  ghost predicate Same(chains: seq<Path>, i: nat, a: nat, j: nat, b: nat) {
    i < |chains| && j < |chains| && a < |chains[i]| && b < |chains[j]| && chains[i][a] == chains[j][b]
  }

  /** A chain with its end points: the route it makes from source to sink. */
  function RouteOf(chain: Path, source: NodeId, sink: NodeId): Path {
    [source] + chain + [sink]
  }

  /** The links of one route, up to its n-th. */
  ghost function RouteLinks(p: Path, n: nat): set<Link>
    requires n < |p|
  {
    set h | 0 <= h < n :: LinkAt(p, h)
  }

  /** The links of the first n chains. */
  ghost function LinksOf(chains: seq<Path>, n: nat, source: NodeId, sink: NodeId): set<Link>
    requires n <= |chains|
  {
    if n == 0 then {}
    else LinksOf(chains, n - 1, source, sink) +
         RouteLinks(RouteOf(chains[n - 1], source, sink), |chains[n - 1]| + 1)
  }

  lemma {:induction false} LinkIsOnChain(chains: seq<Path>, n: nat, source: NodeId, sink: NodeId, e: Link)
      returns (i: nat, h: nat)
    requires n <= |chains| && e in LinksOf(chains, n, source, sink)
    ensures i < n && h <= |chains[i]|
    ensures e == LinkAt(RouteOf(chains[i], source, sink), h)
  {
    var p := RouteOf(chains[n - 1], source, sink);
    if e in RouteLinks(p, |p| - 1) {
      h :| 0 <= h < |p| - 1 && e == LinkAt(p, h);
      i := n - 1;
    } else {
      i, h := LinkIsOnChain(chains, n - 1, source, sink, e);
    }
  }

  lemma {:induction false} ChainLinksIn(chains: seq<Path>, n: nat, source: NodeId, sink: NodeId, i: nat, h: nat)
    requires i < n <= |chains| && h <= |chains[i]|
    ensures LinkAt(RouteOf(chains[i], source, sink), h) in LinksOf(chains, n, source, sink)
  {
    if i < n - 1 {
      ChainLinksIn(chains, n - 1, source, sink, i, h);
    }
  }

  // ----- paths -----

  /** A path in the graph. */
  ghost predicate IsPath(edges: set<Link>, p: Path) {
    |p| > 0 && Distinct(p) && forall h :: 0 <= h < |p| - 1 ==> LinkAt(p, h) in edges
  }

  /** The neighbours along the route of a chain node are the only ones it has. */
  lemma NeighboursOnChain(chains: seq<Path>, l: nat, source: NodeId, sink: NodeId, i: nat, a: nat, v: NodeId)
    requires Layout(chains, l, source, sink) && i < |chains| && a < l
    requires LinkOf(chains[i][a], v) in LinksOf(chains, |chains|, source, sink)
    ensures var r := RouteOf(chains[i], source, sink);
            r[a + 1] == chains[i][a] && (v == r[a] || v == r[a + 2])
  {
    var u := chains[i][a];
    var j, h := LinkIsOnChain(chains, |chains|, source, sink, LinkOf(u, v));
    var r := RouteOf(chains[j], source, sink);
    LinkEnds(u, v, r[h], r[h + 1]);
    if u == r[h] {
      assert h > 0;
      assert Same(chains, i, a, j, h - 1);
    } else {
      assert u == r[h + 1] && h < l;
      assert Same(chains, i, a, j, h);
    }
  }

  /** The source is linked to the heads of chains only. */
  lemma NeighboursOfSource(chains: seq<Path>, l: nat, source: NodeId, sink: NodeId, v: NodeId) returns (i: nat)
    requires Layout(chains, l, source, sink) && LinkOf(source, v) in LinksOf(chains, |chains|, source, sink)
    ensures i < |chains| && v == chains[i][0]
  {
    var h;
    i, h := LinkIsOnChain(chains, |chains|, source, sink, LinkOf(source, v));
    var r := RouteOf(chains[i], source, sink);
    LinkEnds(source, v, r[h], r[h + 1]);
    assert chains[i][0] in chains[i];
    assert forall z :: 1 <= z <= l ==> r[z] == chains[i][z - 1] && r[z] in chains[i];
  }

  /** A simple path out of the source stays on the chain it enters. */
  lemma {:induction false} FollowsChain(
      chains: seq<Path>, l: nat, source: NodeId, sink: NodeId, p: Path, i: nat, n: nat)
    requires Layout(chains, l, source, sink) && i < |chains|
    requires IsPath(LinksOf(chains, |chains|, source, sink), p)
    requires |p| >= 2 && p[0] == source && p[1] == chains[i][0] && 1 <= n < |p| && n <= l + 1
    ensures p[..n + 1] == RouteOf(chains[i], source, sink)[..n + 1]
    ensures p[n] == RouteOf(chains[i], source, sink)[n]
  {
    var r := RouteOf(chains[i], source, sink);
    if n == 1 {
      assert p[..2] == [source, chains[i][0]] == r[..2];
    } else {
      FollowsChain(chains, l, source, sink, p, i, n - 1);
      assert p[..n][n - 1] == r[..n][n - 1] && p[..n][n - 2] == r[..n][n - 2];
      assert LinkAt(p, n - 1) in LinksOf(chains, |chains|, source, sink);
      NeighboursOnChain(chains, l, source, sink, i, n - 2, p[n]);
      assert p[n] == r[n];
      assert p[..n + 1] == p[..n] + [p[n]] && r[..n + 1] == r[..n] + [r[n]];
    }
  }

  /** Every simple source-sink path is the source, one whole chain, then the sink. */
  lemma SimplePathsAreRoutes(chains: seq<Path>, l: nat, source: NodeId, sink: NodeId, p: Path) returns (i: nat)
    requires Layout(chains, l, source, sink) && IsPath(LinksOf(chains, |chains|, source, sink), p)
    requires p[0] == source && p[|p| - 1] == sink
    ensures i < |chains| && p == RouteOf(chains[i], source, sink)
  {
    assert LinkAt(p, 0) in LinksOf(chains, |chains|, source, sink);
    i := NeighboursOfSource(chains, l, source, sink, p[1]);
    var r := RouteOf(chains[i], source, sink);
    assert forall z :: 1 <= z <= l ==> r[z] in chains[i];
    FollowsChain(chains, l, source, sink, p, i, if |p| <= l + 2 then |p| - 1 else l + 1);
    assert |p| == l + 2;
    assert p == p[..|p|] && r == r[..|p|];
  }

  /** ... and each of these is one. */
  lemma RoutesAreSimplePaths(chains: seq<Path>, l: nat, source: NodeId, sink: NodeId, i: nat)
    requires Layout(chains, l, source, sink) && i < |chains|
    ensures IsPath(LinksOf(chains, |chains|, source, sink), RouteOf(chains[i], source, sink))
  {
    var r := RouteOf(chains[i], source, sink);
    forall a, b | 0 <= a < b < |r| ensures r[a] != r[b] {
      if 0 < a && b < l + 1 {
        assert !Same(chains, i, a - 1, i, b - 1);
      } else if 0 < a {
        assert r[a] in chains[i];
      } else if b < l + 1 {
        assert r[b] in chains[i];
      }
    }
    forall h | 0 <= h < |r| - 1 ensures LinkAt(r, h) in LinksOf(chains, |chains|, source, sink) {
      ChainLinksIn(chains, |chains|, source, sink, i, h);
    }
  }

  // ----- the builder -----

  lemma RouteLinksStep(p: Path, n: nat)
    requires n + 1 < |p|
    ensures RouteLinks(p, n + 1) == RouteLinks(p, n) + {LinkAt(p, n)}
    ensures Distinct(p) ==> LinkAt(p, n) !in RouteLinks(p, n)
  {
    if Distinct(p) {
      forall h | 0 <= h < n ensures LinkAt(p, h) != LinkAt(p, n) {
        assert p[h] != p[n] && p[h] != p[n + 1];
      }
    }
  }

  lemma RouteLinksNone(p: Path)
    requires p != []
    ensures RouteLinks(p, 0) == {}
  {
  }

  lemma {:induction false} CardRouteLinks(p: Path, n: nat)
    requires Distinct(p) && n < |p|
    ensures |RouteLinks(p, n)| == n
  {
    hide RouteLinks;
    hide Distinct;
    if n == 0 {
      RouteLinksNone(p);
    } else {
      CardRouteLinks(p, n - 1);
      RouteLinksStep(p, n - 1);
    }
  }

  /** One end of any link of a route is a node of its chain, which is on no other route. */
  lemma LinksDiffer(chains: seq<Path>, l: nat, source: NodeId, sink: NodeId, n: nat, g: nat, i: nat, h: nat)
    requires Layout(chains, l, source, sink) && i < n < |chains| && g <= l && h <= l
    ensures LinkAt(RouteOf(chains[n], source, sink), g) != LinkAt(RouteOf(chains[i], source, sink), h)
  {
    var r, q := RouteOf(chains[n], source, sink), RouteOf(chains[i], source, sink);
    var z := if g < l then g else g - 1;
    assert chains[n][z] == r[z + 1] && (r[z + 1] == r[g] || r[z + 1] == r[g + 1]);
    assert q[h] != chains[n][z] && q[h + 1] != chains[n][z] by {
      assert h > 0 ==> q[h] == chains[i][h - 1] && !Same(chains, n, z, i, h - 1);
      assert h < l ==> q[h + 1] == chains[i][h] && !Same(chains, n, z, i, h);
      assert chains[n][z] in chains[n];
    }
  }

  /** Chains do not share links. */
  lemma LinksApart(chains: seq<Path>, l: nat, source: NodeId, sink: NodeId, n: nat)
    requires Layout(chains, l, source, sink) && n < |chains|
    ensures LinksOf(chains, n, source, sink) !! RouteLinks(RouteOf(chains[n], source, sink), l + 1)
  {
    hide LinksOf;
    hide LinkAt;
    hide AllDifferent;
    forall e | e in LinksOf(chains, n, source, sink) ensures e !in RouteLinks(RouteOf(chains[n], source, sink), l + 1) {
      var i, h := LinkIsOnChain(chains, n, source, sink, e);
      forall g | 0 <= g < l + 1 ensures LinkAt(RouteOf(chains[n], source, sink), g) != e {
        LinksDiffer(chains, l, source, sink, n, g, i, h);
      }
    }
  }

  lemma {:induction false} CardLinks(chains: seq<Path>, l: nat, source: NodeId, sink: NodeId, n: nat)
    requires Layout(chains, l, source, sink) && n <= |chains|
    ensures |LinksOf(chains, n, source, sink)| == Times(n, l + 1)
  {
    hide RouteLinks;
    hide AllDifferent;
    if n > 0 {
      var r := RouteOf(chains[n - 1], source, sink);
      CardLinks(chains, l, source, sink, n - 1);
      LinksApart(chains, l, source, sink, n - 1);
      RoutesAreSimplePaths(chains, l, source, sink, n - 1);
      CardRouteLinks(r, l + 1);
      CardUnion(LinksOf(chains, n - 1, source, sink), RouteLinks(r, l + 1));
    }
  }

  /** A chain numbered above all others differs from them. */
  lemma AppendChain(chains: seq<Path>, p: Path, start: nat)
    requires AllDifferent(chains)
    requires forall i, x :: 0 <= i < |chains| && x in chains[i] ==> x < start
    requires forall z :: 0 <= z < |p| ==> p[z] == start + z
    ensures AllDifferent(chains + [p])
  {
    var longer := chains + [p];
    assert forall i, a :: 0 <= i < |chains| && 0 <= a < |chains[i]| ==> chains[i][a] in chains[i];
    forall i: nat, a: nat, j: nat, b: nat | Same(longer, i, a, j, b) ensures i == j && a == b {
      if i < |chains| && j < |chains| {
        assert Same(chains, i, a, j, b);
      }
    }
  }

  lemma BelowStep(n: nat)
    ensures Below(n + 1) == Below(n) + {n} && Below(0) == {}
  {
  }

  /** The nodes of one chain, numbered consecutively from counter. */
  method BuildChain(nodes: set<NodeId>, counter: nat, l: nat) returns (nodes': set<NodeId>, p: Path, counter': nat)
    requires nodes == Below(counter)
    ensures counter' == counter + l && nodes' == Below(counter') && |p| == l
    ensures forall z :: 0 <= z < l ==> p[z] == counter + z
  {
    hide Below;
    nodes', p, counter' := nodes, [], counter;
    for h := 0 to l
      invariant |p| == h && counter' == counter + h && nodes' == Below(counter')
      invariant forall z :: 0 <= z < h ==> p[z] == counter + z
    {
      BelowStep(counter');
      nodes' := nodes' + {counter'};
      p := p + [counter'];
      counter' := counter' + 1;
    }
  }

  /** n chains of l nodes each, numbered through. */
  ghost function Numbered(n: nat, l: nat): (chains: seq<Path>)
    ensures |chains| == n
  {
    if n == 0 then [] else Numbered(n - 1, l) + [seq(l, h => Times(n - 1, l) + h)]
  }

  lemma {:induction false} NumberedIsLayout(n: nat, l: nat)
    ensures AllDifferent(Numbered(n, l))
    ensures forall i, x :: 0 <= i < n && x in Numbered(n, l)[i] ==> x < Times(n, l)
    ensures forall i :: 0 <= i < n ==> |Numbered(n, l)[i]| == l
  {
    hide AllDifferent;
    if n == 0 {
      NoChains();
    } else {
      NumberedIsLayout(n - 1, l);
      var p := seq(l, h => Times(n - 1, l) + h);
      AppendChain(Numbered(n - 1, l), p, Times(n - 1, l));
    }
  }

  method BuildChains(n: nat, l: nat) returns (nodes: set<NodeId>, chains: seq<Path>, counter: nat)
    ensures chains == Numbered(n, l) && counter == Times(n, l) && nodes == Below(counter)
  {
    hide Below;
    nodes, chains, counter := {}, [], 0;
    BelowStep(0);
    for i := 0 to n
      invariant chains == Numbered(i, l) && counter == Times(i, l) && nodes == Below(counter)
    {
      var p;
      nodes, p, counter := BuildChain(nodes, counter, l);
      assert p == seq(l, h => Times(i, l) + h);
      chains := chains + [p];
    }
  }

  lemma NoChains()
    ensures AllDifferent([])
  {
  }

  /** build_n_parallel_graph: n chains of l nodes between source and sink, n*l + 2 nodes and n*(l+1) edges in all;
      without chains the graph is empty.  (The original indexes an empty chain when l is 0.) */
  method BuildNParallelGraph(n: nat, l: nat)
      returns (nodes: set<NodeId>, edges: set<Link>, source: NodeId, sink: NodeId, ghost chains: seq<Path>)
    requires l >= 1
    ensures chains == Numbered(n, l) && source == Times(n, l) && sink == source + 1
    ensures Layout(chains, l, source, sink) && edges == LinksOf(chains, n, source, sink)
    ensures |nodes| == (if n == 0 then 0 else n * l + 2) && |edges| == n * (l + 1)
    ensures n > 0 ==> source in nodes && sink in nodes
    ensures forall i, x :: 0 <= i < n && x in chains[i] ==> x in nodes
  {
    hide AllDifferent;
    hide RouteLinks;
    hide Below;
    hide Times;
    hide Numbered;
    var paths, counter;
    nodes, paths, counter := BuildChains(n, l);
    chains := paths;
    NumberedIsLayout(n, l);
    source := counter;
    counter := counter + 1;
    sink := counter;
    edges := {};
    ghost var inner := nodes;
    for i := 0 to n
      invariant edges == LinksOf(chains, i, source, sink)
      invariant nodes == if i == 0 then inner else inner + {source, sink}
    {
      nodes := nodes + {source, sink};
      edges := AddRoute(edges, paths[i], source, sink);
    }
    CardGraph(chains, l, source, sink, n, inner);
  }

  lemma CardGraph(chains: seq<Path>, l: nat, source: NodeId, sink: NodeId, n: nat, inner: set<NodeId>)
    requires Layout(chains, l, source, sink) && n == |chains|
    requires |inner| == Times(n, l) && source !in inner && sink !in inner
    ensures |inner + {source, sink}| == n * l + 2 && |LinksOf(chains, n, source, sink)| == n * (l + 1)
    ensures n == 0 ==> |inner| == 0
  {
    hide LinksOf;
    hide AllDifferent;
    hide Times;
    CardLinks(chains, l, source, sink, n);
    CardUnion(inner, {source, sink});
    TimesIsProduct(n, l);
    TimesIsProduct(n, l + 1);
  }

  /** Adds the links of one chain, from the source and to the sink. */
  method AddRoute(edges: set<Link>, p: Path, source: NodeId, sink: NodeId) returns (edges': set<Link>)
    requires p != []
    ensures edges' == edges + RouteLinks(RouteOf(p, source, sink), |p| + 1)
  {
    hide RouteLinks;
    ghost var r, l := RouteOf(p, source, sink), |p|;
    RouteLinksNone(r);
    RouteLinksStep(r, 0);
    RouteLinksStep(r, l);
    edges' := edges + {LinkOf(source, p[0])};
    edges' := edges' + {LinkOf(sink, p[|p| - 1])};
    for h := 0 to |p| - 1
      invariant edges' == edges + RouteLinks(r, h + 1) + {LinkAt(r, l)}
    {
      RouteLinksStep(r, h + 1);
      edges' := edges' + {LinkOf(p[h], p[h + 1])};
    }
  }

  // ----- node-disjoint paths -----

  /** What networkx's node_disjoint_paths returns: different simple paths from s to t that share no
      interior node. */
  ghost predicate DisjointPaths(edges: set<Link>, s: NodeId, t: NodeId, paths: seq<Path>) {
    && (forall i :: 0 <= i < |paths| ==> Joins(edges, s, t, paths[i]))
    && Distinct(paths)
    && ShareNoInterior(paths)
  }

  ghost predicate Joins(edges: set<Link>, s: NodeId, t: NodeId, p: Path) {
    |p| >= 2 && IsPath(edges, p) && p[0] == s && p[|p| - 1] == t
  }

  /** ... and as many of them as there can be. */
  ghost predicate MaximumDisjointPaths(edges: set<Link>, s: NodeId, t: NodeId, paths: seq<Path>) {
    && DisjointPaths(edges, s, t, paths)
    && forall q :: DisjointPaths(edges, s, t, q) ==> |q| <= |paths|
  }

  /** The routes of all chains are disjoint. */
  lemma RoutesAreDisjoint(chains: seq<Path>, l: nat, source: NodeId, sink: NodeId) returns (paths: seq<Path>)
    requires Layout(chains, l, source, sink)
    ensures |paths| == |chains| && DisjointPaths(LinksOf(chains, |chains|, source, sink), source, sink, paths)
  {
    paths := seq(|chains|, i requires 0 <= i < |chains| => RouteOf(chains[i], source, sink));
    forall i | 0 <= i < |paths| ensures Joins(LinksOf(chains, |chains|, source, sink), source, sink, paths[i]) {
      RoutesAreSimplePaths(chains, l, source, sink, i);
    }
    forall i: nat, a: nat, j: nat, b: nat | Crosses(paths, i, a, j, b) ensures i == j {
      assert paths[i][a] == chains[i][a - 1] && paths[i][a] in chains[i];
      assert 0 < b < l + 1;
      assert Same(chains, i, a - 1, j, b - 1);
    }
    forall i, j | 0 <= i < j < |paths| ensures paths[i] != paths[j] {
      assert paths[i][1] == chains[i][0] && paths[j][1] == chains[j][0];
      assert !Same(chains, i, 0, j, 0);
    }
  }

  /** In the parallel graph there are exactly as many disjoint paths as chains, each with l + 2 nodes. */
  lemma DisjointPathsOfGraph(chains: seq<Path>, l: nat, source: NodeId, sink: NodeId, paths: seq<Path>)
    requires Layout(chains, l, source, sink)
    requires MaximumDisjointPaths(LinksOf(chains, |chains|, source, sink), source, sink, paths)
    ensures |paths| == |chains|
    ensures forall q :: 0 <= q < |paths| ==> |paths[q]| == l + 2 && forall x :: x in paths[q] ==>
              x == source || x == sink || OnChains(chains, x)
  {
    var edges := LinksOf(chains, |chains|, source, sink);
    var routes := RoutesAreDisjoint(chains, l, source, sink);
    var index := ChainsOfPaths(chains, l, source, sink, paths, |paths|);
    CardMembers(index);
    CardSubset(Members(index), Below(|chains|));
  }

  /** ... and there is such a family: the routes of all chains. */
  lemma MaximumExists(chains: seq<Path>, l: nat, source: NodeId, sink: NodeId) returns (paths: seq<Path>)
    requires Layout(chains, l, source, sink)
    ensures MaximumDisjointPaths(LinksOf(chains, |chains|, source, sink), source, sink, paths)
  {
    hide DisjointPaths;
    hide AllDifferent;
    var edges := LinksOf(chains, |chains|, source, sink);
    paths := RoutesAreDisjoint(chains, l, source, sink);
    forall q | DisjointPaths(edges, source, sink, q) ensures |q| <= |paths| {
      var index := ChainsOfPaths(chains, l, source, sink, q, |q|);
      CardMembers(index);
      CardSubset(Members(index), Below(|chains|));
    }
  }

  ghost predicate OnChains(chains: seq<Path>, x: NodeId) {
    exists i :: 0 <= i < |chains| && x in chains[i]
  }

  /** The chains that the first n of some different paths run through; they are different. */
  lemma {:induction false} ChainsOfPaths(
      chains: seq<Path>, l: nat, source: NodeId, sink: NodeId, paths: seq<Path>, n: nat)
      returns (index: seq<nat>)
    requires Layout(chains, l, source, sink) && n <= |paths|
    requires DisjointPaths(LinksOf(chains, |chains|, source, sink), source, sink, paths)
    ensures |index| == n && Distinct(index)
    ensures forall q :: 0 <= q < n ==> index[q] < |chains| && paths[q] == RouteOf(chains[index[q]], source, sink)
  {
    hide AllDifferent;
    hide Crosses;
    if n == 0 {
      index := [];
    } else {
      var rest := ChainsOfPaths(chains, l, source, sink, paths, n - 1);
      assert Joins(LinksOf(chains, |chains|, source, sink), source, sink, paths[n - 1]);
      var i := SimplePathsAreRoutes(chains, l, source, sink, paths[n - 1]);
      forall q | 0 <= q < n - 1 ensures rest[q] != i {
        assert paths[q] != paths[n - 1];
      }
      index := rest + [i];
    }
  }
}
