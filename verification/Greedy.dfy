/** Greedy flow admission.  Candidate flows arrive one by one; each is spread evenly over the node-disjoint
    paths between its end points and admitted as long as no link goes over capacity.  The first one that
    does not fit ends the allocation. */
module Greedy {
  import opened Basics
  import opened Products
  import opened ParallelGraph

  const LINK_CAPACITY := 1.0
  const FLOW_TX_RATE_LOWER_BOUND := 0.1
  const FLOW_TX_RATE_UPPER_BOUND := 0.5

  /** A flow to admit: end points and rate as drawn, paths as found. */
  datatype Candidate = Candidate(source: NodeId, destination: NodeId, rate: real, paths: seq<Path>) {

    /** What the random draw and the search for disjoint paths guarantee. */
    ghost predicate Valid(edges: set<Link>)
      ensures Valid(edges) ==> paths != [] && 0.1 <= rate <= 0.5
    {
      && paths != [] && DisjointPaths(edges, source, destination, paths) && source != destination
      && FLOW_TX_RATE_LOWER_BOUND <= rate <= FLOW_TX_RATE_UPPER_BOUND
    }

    /** The rate on each of its paths. */
    function Share(): real
      requires paths != []
    {
      rate / (|paths| as real)
    }

    /** The load it puts on a link: one share for each of its paths over the link. */
    ghost function Load(e: Link): real
      requires paths != []
    {
      LoadOfFirst(e, |paths|)
    }

    ghost function LoadOfFirst(e: Link, n: nat): real
      requires paths != [] && n <= |paths|
    {
      if n == 0 then 0.0 else LoadOfFirst(e, n - 1) + if e in LinksOn(paths[n - 1]) then Share() else 0.0
    }
  }

  /** The links of a path, in order. */
  function LinksOn(p: Path): (ls: seq<Link>)
    ensures |ls| == if p == [] then 0 else |p| - 1
    ensures forall h :: 0 <= h < |ls| ==> ls[h] == LinkAt(p, h)
  {
    if p == [] then [] else seq(|p| - 1, h requires 0 <= h < |p| - 1 => LinkAt(p, h))
  }

  /** The links of the first n paths, in the order in which they are tried. */
  function LinksOfFirst(paths: seq<Path>, n: nat): seq<Link>
    requires n <= |paths|
  {
    if n == 0 then [] else LinksOfFirst(paths, n - 1) + LinksOn(paths[n - 1])
  }

  function AllLinks(c: Candidate): seq<Link> {
    LinksOfFirst(c.paths, |c.paths|)
  }

  // ----- a flow uses a link at most once -----

  /** A simple path uses a link once. */
  lemma LinksOnceOnPath(p: Path)
    requires Distinct(p)
    ensures Distinct(LinksOn(p))
  {
    forall i, j | 0 <= i < j < |LinksOn(p)| ensures LinksOn(p)[i] != LinksOn(p)[j] {
      assert p[i] != p[j] && p[i] != p[j + 1];
    }
  }

  /** Disjoint paths share no link. */
  lemma PathsShareNoLink(edges: set<Link>, s: NodeId, t: NodeId, paths: seq<Path>, i: nat, j: nat, a: nat, b: nat)
    requires DisjointPaths(edges, s, t, paths) && s != t && i < |paths| && j < |paths|
    requires a + 1 < |paths[i]| && b + 1 < |paths[j]| && LinkAt(paths[i], a) == LinkAt(paths[j], b)
    ensures i == j
  {
    var p, q := paths[i], paths[j];
    LinkEnds(p[a], p[a + 1], q[b], q[b + 1]);
    assert Joins(edges, s, t, p) && Joins(edges, s, t, q);
    if a > 0 {
      var b' := if p[a] == q[b] then b else b + 1;
      assert Crosses(paths, i, a, j, b');
    } else if a + 1 < |p| - 1 {
      var b' := if p[a + 1] == q[b] then b else b + 1;
      assert Crosses(paths, i, a + 1, j, b');
    } else {
      assert p == [s, t];
      assert q == [s, t] by {
        assert q[0] == s && q[|q| - 1] == t;
        assert Distinct(q);
      }
    }
  }

  lemma LinkOnPath(p: Path, e: Link) returns (a: nat)
    requires e in LinksOn(p)
    ensures a + 1 < |p| && e == LinkAt(p, a)
  {
    var h :| 0 <= h < |LinksOn(p)| && LinksOn(p)[h] == e;
    a := h;
  }

  lemma {:induction false} LinkOfSomePath(paths: seq<Path>, n: nat, e: Link) returns (i: nat)
    requires n <= |paths| && e in LinksOfFirst(paths, n)
    ensures i < n && e in LinksOn(paths[i])
  {
    if e in LinksOn(paths[n - 1]) {
      i := n - 1;
    } else {
      i := LinkOfSomePath(paths, n - 1, e);
    }
  }

  /** A link of an earlier path is not on this one. */
  lemma OnOnePath(edges: set<Link>, s: NodeId, t: NodeId, paths: seq<Path>, n: nat, e: Link)
    requires DisjointPaths(edges, s, t, paths) && s != t && n < |paths| && e in LinksOfFirst(paths, n)
    ensures e !in LinksOn(paths[n])
  {
    hide DisjointPaths;
    if e in LinksOn(paths[n]) {
      var i := LinkOfSomePath(paths, n, e);
      var a := LinkOnPath(paths[i], e);
      var b := LinkOnPath(paths[n], e);
      PathsShareNoLink(edges, s, t, paths, i, n, a, b);
      assert false;
    }
  }

  /** The links of a path are in the graph, and all different. */
  lemma PathLinks(edges: set<Link>, s: NodeId, t: NodeId, paths: seq<Path>, n: nat)
    requires DisjointPaths(edges, s, t, paths) && n < |paths|
    ensures Distinct(LinksOn(paths[n]))
    ensures forall e :: e in LinksOn(paths[n]) ==> e in edges
  {
    var p := paths[n];
    assert Joins(edges, s, t, p);
    LinksOnceOnPath(p);
    hide LinkAt;
  }

  /** All links of a flow are different. */
  lemma {:induction false} LinksOnce(edges: set<Link>, s: NodeId, t: NodeId, paths: seq<Path>, n: nat)
    requires DisjointPaths(edges, s, t, paths) && s != t && n <= |paths|
    ensures Distinct(LinksOfFirst(paths, n))
    ensures forall e :: e in LinksOfFirst(paths, n) ==> e in edges
  {
    hide DisjointPaths;
    hide LinksOn;
    if n > 0 {
      LinksOnce(edges, s, t, paths, n - 1);
      PathLinks(edges, s, t, paths, n - 1);
      var earlier, own := LinksOfFirst(paths, n - 1), LinksOn(paths[n - 1]);
      forall e | e in earlier ensures e !in own {
        OnOnePath(edges, s, t, paths, n - 1, e);
      }
      DistinctConcat(earlier, own);
    }
  }

  /** So the load of a flow on a link is one share, or nothing. */
  lemma {:induction false} LoadIsOneShare(edges: set<Link>, c: Candidate, e: Link, n: nat)
    requires c.Valid(edges) && n <= |c.paths|
    ensures c.LoadOfFirst(e, n) == if e in LinksOfFirst(c.paths, n) then c.Share() else 0.0
  {
    hide DisjointPaths;
    if n > 0 {
      LoadIsOneShare(edges, c, e, n - 1);
      if e in LinksOfFirst(c.paths, n - 1) {
        OnOnePath(edges, c.source, c.destination, c.paths, n - 1, e);
      }
    }
  }

  // ----- utilization -----

  type Utilization = map<Link, real>

  /** One more share on each of the given links. */
  ghost function AddOn(u: Utilization, ls: seq<Link>, share: real): Utilization {
    map e | e in u :: u[e] + if e in ls then share else 0.0
  }

  lemma AddOnStep(u: Utilization, ls: seq<Link>, e: Link, share: real)
    requires e in u && e !in ls
    ensures var v := AddOn(u, ls, share); e in v && v[e] == u[e] && AddOn(u, ls + [e], share) == v[e := v[e] + share]
  {
  }

  lemma AddOnNothing(u: Utilization, share: real)
    ensures AddOn(u, [], share) == u
  {
  }

  /** Every link of the flow has room for its share. */
  ghost predicate Fits(c: Candidate, u: Utilization)
    requires c.paths != []
  {
    forall e :: e in AllLinks(c) && e in u ==> u[e] + c.Share() <= 1.0
  }

  /** Within capacity, and not negative. */
  ghost predicate Sane(edges: set<Link>, u: Utilization) {
    u.Keys == edges && forall e :: e in u ==> 0.0 <= u[e] <= 1.0
  }

  lemma {:induction false} LinksArePrefix(paths: seq<Path>, i: nat, n: nat)
    requires i < n <= |paths|
    ensures LinksOfFirst(paths, i) + LinksOn(paths[i]) <= LinksOfFirst(paths, n)
  {
    hide LinksOn;
    if i < n - 1 {
      LinksArePrefix(paths, i, n - 1);
    }
  }

  /** The first `tried` of the links have been given a share, all within capacity. */
  ghost predicate Progress(edges: set<Link>, u: Utilization, all: seq<Link>, share: real, tried: nat, u': Utilization) {
    && tried <= |all| && Sane(edges, u') && u' == AddOn(u, all[..tried], share)
    && forall z :: 0 <= z < tried ==> all[z] in u && u[all[z]] + share <= LINK_CAPACITY
  }

  lemma ProgressStarts(edges: set<Link>, u: Utilization, all: seq<Link>, share: real)
    requires Sane(edges, u)
    ensures Progress(edges, u, all, share, 0, u)
  {
    assert all[..0] == [];
    AddOnNothing(u, share);
  }

  lemma ProgressStep(edges: set<Link>, u: Utilization, all: seq<Link>, share: real, tried: nat, u': Utilization)
    requires Progress(edges, u, all, share, tried, u') && tried < |all| && Distinct(all) && share > 0.0
    requires u.Keys == edges && all[tried] in edges
    ensures all[tried] in u' && u'[all[tried]] == u[all[tried]]
    ensures u'[all[tried]] + share <= LINK_CAPACITY ==>
              Progress(edges, u, all, share, tried + 1, u'[all[tried] := u'[all[tried]] + share])
  {
    var e := all[tried];
    assert e !in all[..tried];
    assert all[..tried + 1] == all[..tried] + [e];
    AddOnStep(u, all[..tried], e, share);
    hide AddOn;
  }

  /** Tries the links of one path. */
  method TryPath(
      edges: set<Link>, p: Path, share: real, u: Utilization, ghost u0: Utilization, ghost all: seq<Link>,
      ghost base: nat)
      returns (u': Utilization, admitted: bool, ghost tried: nat)
    requires Progress(edges, u0, all, share, base, u) && Distinct(all) && share > 0.0 && u0.Keys == edges
    requires base + |LinksOn(p)| <= |all| && all[base..base + |LinksOn(p)|] == LinksOn(p)
    requires forall e :: e in all ==> e in edges
    ensures Progress(edges, u0, all, share, tried, u')
    ensures admitted ==> tried == base + |LinksOn(p)|
    ensures !admitted ==> tried < |all| && all[tried] in u0 && u0[all[tried]] + share > LINK_CAPACITY
  {
    hide Progress;
    hide Distinct;
    var links := LinksOn(p);
    u', tried := u, base;
    for h := 0 to |links|
      invariant tried == base + h && Progress(edges, u0, all, share, tried, u')
    {
      var e := links[h];
      assert e == all[base..base + |links|][h] == all[tried] && e in all;
      ProgressStep(edges, u0, all, share, tried, u');
      if u'[e] + share > LINK_CAPACITY {
        admitted := false;
        return;
      }
      u' := u'[e := u'[e] + share];
      tried := tried + 1;
    }
    admitted := true;
  }

  /** Tries the links of a flow in order, adding its share to each, and stops at the first that has no room.
      The links before it keep the share: `tried` says how many they are. */
  method TryAdmit(edges: set<Link>, c: Candidate, u: Utilization)
      returns (u': Utilization, admitted: bool, ghost tried: nat)
    requires c.Valid(edges) && Sane(edges, u)
    ensures Sane(edges, u') && tried <= |AllLinks(c)| && u' == AddOn(u, AllLinks(c)[..tried], c.Share())
    ensures admitted <==> tried == |AllLinks(c)|
    ensures admitted <==> Fits(c, u)
    ensures forall e :: e in AllLinks(c)[..tried] && e in u ==> u[e] + c.Share() <= LINK_CAPACITY
    ensures !admitted ==> AllLinks(c)[tried] in u && u[AllLinks(c)[tried]] + c.Share() > LINK_CAPACITY
  {
    hide AddOn;
    hide DisjointPaths;
    hide Distinct;
    hide LinksOn;
    ghost var all := AllLinks(c);
    LinksOnce(edges, c.source, c.destination, c.paths, |c.paths|);
    var share := c.Share();
    ShareIsPositive(c);
    u', tried, admitted := u, 0, true;
    ProgressStarts(edges, u, all, share);
    for i := 0 to |c.paths|
      invariant tried == |LinksOfFirst(c.paths, i)| && Progress(edges, u, all, share, tried, u')
    {
      NextLinks(c.paths, i);
      u', admitted, tried := TryPath(edges, c.paths[i], share, u', u, all, tried);
      if !admitted {
        assert all[tried] in all;
        return;
      }
    }
    admitted := true;
  }

  /** Where the links of path i stand among all links. */
  lemma NextLinks(paths: seq<Path>, i: nat)
    requires i < |paths|
    ensures var base, all := |LinksOfFirst(paths, i)|, LinksOfFirst(paths, |paths|);
            && base + |LinksOn(paths[i])| == |LinksOfFirst(paths, i + 1)| <= |all|
            && all[base..base + |LinksOn(paths[i])|] == LinksOn(paths[i])
  {
    LinksArePrefix(paths, i, |paths|);
  }

  lemma ShareIsPositive(c: Candidate)
    requires c.paths != [] && c.rate > 0.0
    ensures c.Share() > 0.0
  {
  }

  // ----- the load of all admitted flows -----

  /** The first n candidates, in order. */
  ghost function Taken(next: nat -> Candidate, n: nat): (cs: seq<Candidate>)
    ensures |cs| == n && forall i :: 0 <= i < n ==> cs[i] == next(i)
  {
    seq(n, i requires 0 <= i < n => next(i))
  }

  /** What the first n candidates put on a link together. */
  ghost function LoadBefore(edges: set<Link>, next: nat -> Candidate, n: nat, e: Link): real
    requires AllValid(edges, next)
  {
    if n == 0 then 0.0 else LoadBefore(edges, next, n - 1, e) + next(n - 1).Load(e)
  }

  ghost predicate AllValid(edges: set<Link>, next: nat -> Candidate) {
    forall i: nat :: next(i).Valid(edges)
  }

  /** The load of the first n candidates on every link. */
  ghost function Loads(edges: set<Link>, next: nat -> Candidate, n: nat): (u: Utilization)
    requires AllValid(edges, next)
    ensures u.Keys == edges
  {
    map e | e in edges :: LoadBefore(edges, next, n, e)
  }

  /** Admitting a candidate adds its load, no more and no less. */
  lemma LoadsStep(edges: set<Link>, next: nat -> Candidate, n: nat)
    requires AllValid(edges, next)
    ensures Loads(edges, next, n + 1) == AddOn(Loads(edges, next, n), AllLinks(next(n)), next(n).Share())
  {
    hide Candidate.Valid;
    var c := next(n);
    forall e | e in edges ensures c.Load(e) == if e in AllLinks(c) then c.Share() else 0.0 {
      LoadIsOneShare(edges, c, e, |c.paths|);
    }
  }

  // ----- total utilization -----

  ghost function Total(u: Utilization, links: seq<Link>): real
    requires forall e :: e in links ==> e in u
  {
    if links == [] then 0.0 else Total(u, links[..|links| - 1]) + u[links[|links| - 1]]
  }

  lemma {:induction false} TotalOfUpdate(u: Utilization, links: seq<Link>, e: Link, d: real)
    requires Distinct(links) && e in u && forall f :: f in links ==> f in u
    ensures Total(u[e := u[e] + d], links) == Total(u, links) + if e in links then d else 0.0
  {
    if links != [] {
      var n := |links| - 1;
      assert links == links[..n] + [links[n]];
      TotalOfUpdate(u, links[..n], e, d);
    }
  }

  /** A share on each of m links raises the total by m shares. */
  lemma {:induction false} TotalOfAddOn(u: Utilization, order: seq<Link>, ls: seq<Link>, share: real)
    requires Distinct(order) && Distinct(ls)
    requires (forall f :: f in order ==> f in u) && forall f :: f in ls ==> f in order
    ensures Total(AddOn(u, ls, share), order) == Total(u, order) + Copies(|ls|, share)
  {
    hide Total;
    if ls == [] {
      AddOnNothing(u, share);
    } else {
      var n := |ls| - 1;
      var rest, e := ls[..n], ls[n];
      assert ls == rest + [e];
      TotalOfAddOn(u, order, rest, share);
      AddOnStep(u, rest, e, share);
      TotalOfUpdate(AddOn(u, rest, share), order, e, share);
    }
  }

  lemma {:induction false} TotalBound(edges: set<Link>, u: Utilization, order: seq<Link>)
    requires Sane(edges, u) && forall e :: e in order ==> e in u
    ensures Total(u, order) <= |order| as real
  {
    if order != [] {
      assert order[|order| - 1] in order;
      TotalBound(edges, u, order[..|order| - 1]);
    }
  }

  lemma {:induction false} Listing(s: set<Link>) returns (order: seq<Link>)
    ensures Distinct(order) && |order| == |s| && forall e :: e in order <==> e in s
  {
    order := [];
    if s != {} {
      var e :| e in s;
      var rest := Listing(s - {e});
      order := rest + [e];
    }
  }

  /** Every path has a link. */
  lemma PathHasLink(edges: set<Link>, c: Candidate, i: nat)
    requires c.Valid(edges) && i < |c.paths|
    ensures |LinksOn(c.paths[i])| >= 1
  {
    hide ShareNoInterior;
    hide Distinct;
    hide IsPath;
    assert Joins(edges, c.source, c.destination, c.paths[i]);
  }

  lemma {:induction false} ManyLinks(edges: set<Link>, c: Candidate, n: nat)
    requires c.Valid(edges) && n <= |c.paths|
    ensures |LinksOfFirst(c.paths, n)| >= n
  {
    hide Candidate.Valid;
    hide LinksOn;
    if n > 0 {
      ManyLinks(edges, c, n - 1);
      PathHasLink(edges, c, n - 1);
    }
  }

  /** The shares of a flow add up to its rate. */
  lemma SharesMakeRate(c: Candidate)
    requires c.paths != []
    ensures Copies(|c.paths|, c.Share()) == c.rate
  {
    CopiesIsProduct(|c.paths|, c.Share());
  }

  /** ... and on all its links to at least that. */
  lemma SharesCoverRate(edges: set<Link>, c: Candidate)
    requires c.Valid(edges)
    ensures Copies(|AllLinks(c)|, c.Share()) >= c.rate
  {
    hide Candidate.Valid;
    hide Candidate.Share;
    hide LinksOfFirst;
    ManyLinks(edges, c, |c.paths|);
    ShareIsPositive(c);
    CopiesGrow(|c.paths|, |AllLinks(c)|, c.Share());
    SharesMakeRate(c);
  }

  /** Admitting a flow raises the total by at least the lowest rate. */
  lemma TotalGrows(edges: set<Link>, u: Utilization, order: seq<Link>, c: Candidate)
    requires c.Valid(edges) && u.Keys == edges && Distinct(order) && forall e :: e in order <==> e in edges
    ensures Total(AddOn(u, AllLinks(c), c.Share()), order) >= Total(u, order) + FLOW_TX_RATE_LOWER_BOUND
  {
    hide Total;
    hide AddOn;
    hide Distinct;
    hide DisjointPaths;
    LinksOnce(edges, c.source, c.destination, c.paths, |c.paths|);
    TotalOfAddOn(u, order, AllLinks(c), c.Share());
    SharesCoverRate(edges, c);
  }

  // ----- the allocation -----

  /** The candidate fits beside the load of all candidates before it. */
  ghost predicate Welcome(edges: set<Link>, next: nat -> Candidate, n: nat)
    requires AllValid(edges, next)
  {
    Fits(next(n), Loads(edges, next, n))
  }

  /** How the reported utilization relates to the load when flow c is refused at link number `tried`: it is
      within capacity, and off by one share of c on exactly the links tried before. */
  ghost predicate LeftBy(edges: set<Link>, c: Candidate, load: Utilization, reported: Utilization, tried: nat)
    requires c.paths != []
  {
    var links, share := AllLinks(c), c.Share();
    && load.Keys == edges == reported.Keys
    && tried < |links| && links[tried] in edges && load[links[tried]] + share > 1.0
    && (forall e :: e in edges ==> load[e] <= reported[e] <= 1.0)
    && (forall e :: e in edges ==> reported[e] - load[e] == if e in links[..tried] then share else 0.0)
    && links[0] in edges && (reported == load <==> load[links[0]] + share > 1.0)
  }

  /** Admits candidates up to the first that does not fit.

      The flows returned are the candidates before it, whatever they are; there are at least two of them and never
      more than `10 * |edges|`.  The utilization returned is their load, plus a share of the refused flow on
      each of the links tried before the one without room; so it is exact only if the very first link of
      the refused flow is the one without room. */
  method ComputeGreedyFlowAllocations(edges: set<Link>, next: nat -> Candidate)
      returns (flows: seq<Candidate>, utilization: Utilization, ghost tried: nat)
    requires AllValid(edges, next)
    ensures flows == Taken(next, |flows|) && 2 <= |flows| <= 10 * |edges|
    ensures forall i :: 0 <= i < |flows| ==> Welcome(edges, next, i)
    ensures !Welcome(edges, next, |flows|)
    ensures LeftBy(edges, next(|flows|), Loads(edges, next, |flows|), utilization, tried)
  {
    hide Candidate.Valid;
    hide AddOn;
    hide Fits;
    hide Total;
    hide LeftBy;
    hide Loads;
    hide Candidate.Share;
    hide LinksOfFirst;
    hide Distinct;
    ghost var order := Listing(edges);
    utilization := map e | e in edges :: 0.0;
    flows := [];
    StartsEmpty(edges, next, utilization, order);
    while true
      invariant flows == Taken(next, |flows|)
      invariant Sane(edges, utilization) && utilization == Loads(edges, next, |flows|)
      invariant forall i :: 0 <= i < |flows| ==> Welcome(edges, next, i)
      invariant |flows| as real * FLOW_TX_RATE_LOWER_BOUND <= Total(utilization, order)
      decreases 10 * |edges| - |flows|
    {
      var c := next(|flows|);
      ghost var before := utilization;
      TotalBound(edges, before, order);
      var u', admitted, n := TryAdmit(edges, c, utilization);
      utilization, tried := u', n;
      if !admitted {
        Refused(edges, c, before, tried);
        if |flows| < 2 {
          FirstTwoFit(edges, next, |flows|);
        }
        return;
      }
      LoadsStep(edges, next, |flows|);
      TotalGrows(edges, before, order, c);
      TotalBound(edges, utilization, order);
      assert AllLinks(c)[..tried] == AllLinks(c);
      flows := flows + [c];
    }
  }

  /** The rate is divided over the paths. */
  lemma SharesMakeTheRate(edges: set<Link>, c: Candidate)
    requires c.Valid(edges)
    ensures c.Share() * |c.paths| as real == c.rate && 0.0 < c.Share() <= 0.5
  {
    var n := |c.paths| as real;
    assert n >= 1.0;
    assert c.Share() * n == c.rate;
  }

  /** Two shares of at most a half fit on any link. */
  lemma FirstTwoFit(edges: set<Link>, next: nat -> Candidate, n: nat)
    requires AllValid(edges, next) && n < 2
    ensures Welcome(edges, next, n)
  {
    hide Candidate.Valid;
    hide Candidate.Share;
    hide LinksOfFirst;
    SharesMakeTheRate(edges, next(0));
    SharesMakeTheRate(edges, next(1));
    LoadsStep(edges, next, 0);
    assert forall e :: e in edges ==> Loads(edges, next, 0)[e] == 0.0;
  }

  lemma StartsEmpty(edges: set<Link>, next: nat -> Candidate, u: Utilization, order: seq<Link>)
    requires AllValid(edges, next) && u == (map e | e in edges :: 0.0) && forall e :: e in order ==> e in edges
    ensures Sane(edges, u) && u == Loads(edges, next, 0) && Total(u, order) == 0.0
  {
    if order != [] {
      assert order[|order| - 1] in order;
      StartsEmpty(edges, next, u, order[..|order| - 1]);
    }
  }

  /** What a refused flow leaves behind. */
  lemma Refused(edges: set<Link>, c: Candidate, u: Utilization, tried: nat)
    requires c.Valid(edges) && u.Keys == edges && tried < |AllLinks(c)|
    requires Sane(edges, AddOn(u, AllLinks(c)[..tried], c.Share()))
    requires AllLinks(c)[tried] in edges && u[AllLinks(c)[tried]] + c.Share() > LINK_CAPACITY
    requires forall e :: e in AllLinks(c)[..tried] && e in u ==> u[e] + c.Share() <= LINK_CAPACITY
    ensures LeftBy(edges, c, u, AddOn(u, AllLinks(c)[..tried], c.Share()), tried)
  {
    hide DisjointPaths;
    hide Distinct;
    hide LinksOfFirst;
    LinksOnce(edges, c.source, c.destination, c.paths, |c.paths|);
    ShareIsPositive(c);
    var first := AllLinks(c)[0];
    assert first in AllLinks(c);
    if tried == 0 {
      AddOnNothing(u, c.Share());
    } else {
      assert first == AllLinks(c)[..tried][0];
    }
  }

  // ----- the reported utilization can exceed the load -----

  /** A line of three nodes. */
  const LINE: set<Link> := {(0, 1), (1, 2)}
  const SHORT := Candidate(1, 2, 0.5, [[1, 2]])
  const LONG := Candidate(0, 2, 0.5, [[0, 1, 2]])

  /** Two flows that fill the second link, and then flows over both links. */
  function Filling(i: nat): Candidate {
    if i < 2 then SHORT else LONG
  }

  lemma FillingIsValid()
    ensures AllValid(LINE, Filling)
  {
    assert LinkAt([1, 2], 0) == (1, 2);
    assert LinkAt([0, 1, 2], 0) == (0, 1) && LinkAt([0, 1, 2], 1) == (1, 2);
    assert Joins(LINE, 1, 2, [1, 2]) && Joins(LINE, 0, 2, [0, 1, 2]);
    assert forall i, a, j, b :: Crosses(SHORT.paths, i, a, j, b) ==> i == j;
    assert forall i, a, j, b :: Crosses(LONG.paths, i, a, j, b) ==> i == j;
    assert SHORT.Valid(LINE) && LONG.Valid(LINE);
  }

  lemma FillingLinks()
    ensures AllLinks(SHORT) == [(1, 2)] && AllLinks(LONG) == [(0, 1), (1, 2)]
    ensures SHORT.Share() == 0.5 && LONG.Share() == 0.5
  {
    assert LinksOfFirst(SHORT.paths, 0) == [] && LinksOfFirst(LONG.paths, 0) == [];
    assert LinksOn([1, 2]) == [(1, 2)];
    assert LinksOn([0, 1, 2]) == [(0, 1), (1, 2)];
  }

  lemma FillingLoads()
    requires AllValid(LINE, Filling)
    ensures Loads(LINE, Filling, 0) == map[(0, 1) := 0.0, (1, 2) := 0.0]
    ensures Loads(LINE, Filling, 1) == map[(0, 1) := 0.0, (1, 2) := 0.5]
    ensures Loads(LINE, Filling, 2) == map[(0, 1) := 0.0, (1, 2) := 1.0]
  {
    hide LinksOfFirst;
    hide Candidate.Valid;
    hide Candidate.Share;
    FillingLinks();
    LoadsStep(LINE, Filling, 0);
    LoadsStep(LINE, Filling, 1);
  }

  /** Whatever a run on this stream returns, it admits two flows and reports half the first link's capacity as in
      use, although no admitted flow uses that link. */
  lemma ReportedAboveLoad(admitted: nat, reported: Utilization, tried: nat)
    requires AllValid(LINE, Filling)
    requires (forall i :: 0 <= i < admitted ==> Welcome(LINE, Filling, i)) && !Welcome(LINE, Filling, admitted)
    requires LeftBy(LINE, Filling(admitted), Loads(LINE, Filling, admitted), reported, tried)
    ensures admitted == 2 && Loads(LINE, Filling, 2)[(0, 1)] == 0.0 && reported[(0, 1)] == 0.5
  {
    hide LinksOfFirst;
    hide Candidate.Valid;
    hide Candidate.Share;
    hide Loads;
    FillingLinks();
    FillingLoads();
    assert Welcome(LINE, Filling, 0) && Welcome(LINE, Filling, 1);
    assert !Welcome(LINE, Filling, 2) by {
      assert (1, 2) in AllLinks(LONG) && (1, 2) in Loads(LINE, Filling, 2);
    }
    assert admitted == 2;
    assert AllLinks(LONG)[..1] == [(0, 1)];
  }
}
