/** Turning an edge-flow solution into weighted paths.  `TraverseGraphIterative` is the worklist search; it
    is proved to enumerate exactly the simple paths that carry flow, each once, shortest first. */
module Traversal {
  import opened Basics
  import opened Products

  /** One item of the solution dictionary F: the share of a flow's traffic sent over a directed link. */
  datatype Entry = Entry(flow: nat, u: NodeId, v: NodeId, ratio: real)

  /** A dictionary in iteration order: no key occurs twice. */
  ghost predicate Keyed(F: seq<Entry>) {
    forall i, j :: 0 <= i < j < |F| ==> !SameKey(F[i], F[j])
  }

  predicate SameKey(a: Entry, b: Entry) {
    a.flow == b.flow && a.u == b.u && a.v == b.v
  }

  /** Ratios at or below this are taken for numerical noise. */
  const EPSILON := 0.001

  predicate Carrying(e: Entry, f: nat, u: NodeId) {
    e.flow == f && e.u == u && e.ratio > EPSILON
  }

  /** The link from u to v carries some of flow f. */
  ghost predicate Carries(F: seq<Entry>, f: nat, u: NodeId, v: NodeId) {
    exists i :: 0 <= i < |F| && Carrying(F[i], f, u) && F[i].v == v
  }

  /** Flow f's ratio on the link from u to v (zero when the link has no entry). */
  function Ratio(F: seq<Entry>, f: nat, u: NodeId, v: NodeId): real {
    if F == [] then 0.0
    else if F[0].flow == f && F[0].u == u && F[0].v == v then F[0].ratio
    else Ratio(F[1..], f, u, v)
  }

  function Min(a: real, b: real): real {
    if a < b then a else b
  }

  /** The smaller of 1 and the smallest ratio along the path. */
  function Bottleneck(F: seq<Entry>, f: nat, p: Path): real
  {
    if |p| <= 1 then 1.0
    else Min(Ratio(F, f, p[|p| - 2], p[|p| - 1]), Bottleneck(F, f, p[..|p| - 1]))
  }

  /** A simple path out of s all of whose links carry flow f. */
  ghost predicate Trail(F: seq<Entry>, f: nat, s: NodeId, p: Path) {
    |p| >= 1 && p[0] == s && Distinct(p) && forall h :: 0 <= h < |p| - 1 ==> Step(F, f, p, h)
  }

  ghost predicate Step(F: seq<Entry>, f: nat, p: Path, h: nat)
    requires h + 1 < |p|
  {
    Carries(F, f, p[h], p[h + 1])
  }

  /** A simple s-t path all of whose links carry flow f. */
  ghost predicate Route(F: seq<Entry>, f: nat, s: NodeId, t: NodeId, p: Path) {
    |p| >= 2 && Trail(F, f, s, p) && p[|p| - 1] == t
  }

  datatype Item = Item(path: Path, ratio: real)

  /** The result of a search: every route, once, shortest first, with its bottleneck. */
  ghost predicate Enumerates(F: seq<Entry>, f: nat, s: NodeId, t: NodeId, routes: seq<Item>) {
    && (forall i :: 0 <= i < |routes| ==>
          Route(F, f, s, t, routes[i].path) && routes[i].ratio == Bottleneck(F, f, routes[i].path))
    && (forall p :: Route(F, f, s, t, p) ==> Found(routes, p))
    && (forall i, j :: 0 <= i < j < |routes| ==> routes[i].path != routes[j].path)
    && (forall i, j :: 0 <= i < j < |routes| ==> |routes[i].path| <= |routes[j].path|)
  }

  ghost predicate Found(items: seq<Item>, p: Path) {
    exists i :: 0 <= i < |items| && items[i].path == p
  }

  // ----- one expansion -----

  lemma {:induction false} RatioOfEntry(F: seq<Entry>, i: nat)
    requires Keyed(F) && i < |F|
    ensures Ratio(F, F[i].flow, F[i].u, F[i].v) == F[i].ratio
  {
    if i > 0 {
      assert !SameKey(F[0], F[i]);
      RatioOfEntry(F[1..], i - 1);
    }
  }

  lemma {:induction false} NoEntry(F: seq<Entry>, f: nat, u: NodeId, v: NodeId)
    requires forall i :: 0 <= i < |F| ==> !(F[i].flow == f && F[i].u == u && F[i].v == v)
    ensures Ratio(F, f, u, v) == 0.0
  {
    if F != [] {
      NoEntry(F[1..], f, u, v);
    }
  }

  /** A link carries a flow if its ratio is more than a thousandth. */
  lemma CarriesIff(F: seq<Entry>, f: nat, u: NodeId, v: NodeId)
    requires Keyed(F)
    ensures Carries(F, f, u, v) <==> Ratio(F, f, u, v) > 0.001
  {
    if i :| 0 <= i < |F| && F[i].flow == f && F[i].u == u && F[i].v == v {
      RatioOfEntry(F, i);
      forall j | 0 <= j < |F| && Carrying(F[j], f, u) && F[j].v == v ensures F[j].ratio == F[i].ratio {
        RatioOfEntry(F, j);
      }
    } else {
      NoEntry(F, f, u, v);
    }
  }

  /** So a route is a simple path on each of whose links the flow's ratio is more than a thousandth. */
  lemma RouteIff(F: seq<Entry>, f: nat, s: NodeId, t: NodeId, p: Path)
    requires Keyed(F)
    ensures Route(F, f, s, t, p) <==>
            && |p| >= 2 && p[0] == s && p[|p| - 1] == t && Distinct(p)
            && forall h :: 0 <= h < |p| - 1 ==> Ratio(F, f, p[h], p[h + 1]) > 0.001
  {
    hide Ratio;
    hide Carries;
    hide Keyed;
    forall h | 0 <= h < |p| - 1 ensures Step(F, f, p, h) <==> Ratio(F, f, p[h], p[h + 1]) > 0.001 {
      CarriesIff(F, f, p[h], p[h + 1]);
    }
  }

  /** get_paths_for_flow: the entries of flow f out of u above the noise. */
  function NextHops(F: seq<Entry>, f: nat, u: NodeId): (r: seq<Entry>)
    ensures |r| <= |F|
  {
    if F == [] then []
    else if Carrying(F[0], f, u) then [F[0]] + NextHops(F[1..], f, u)
    else NextHops(F[1..], f, u)
  }

  ghost predicate DistinctTargets(r: seq<Entry>) {
    forall i, j :: 0 <= i < j < |r| ==> r[i].v != r[j].v
  }

  lemma {:induction false} NextHopsAre(F: seq<Entry>, f: nat, u: NodeId)
    requires Keyed(F)
    ensures forall e :: e in NextHops(F, f, u) <==> e in F && Carrying(e, f, u)
    ensures DistinctTargets(NextHops(F, f, u))
  {
    if F != [] {
      NextHopsAre(F[1..], f, u);
      var r, rest := NextHops(F, f, u), NextHops(F[1..], f, u);
      assert F == [F[0]] + F[1..];
      if Carrying(F[0], f, u) {
        forall j | 0 <= j < |rest| ensures rest[j].v != F[0].v {
          assert rest[j] in rest;
          var i :| 0 <= i < |F[1..]| && F[1..][i] == rest[j];
          assert !SameKey(F[0], F[i + 1]);
        }
      }
    }
  }

  /** d extends path c by a hop, to its own last node. */
  ghost predicate Child(F: seq<Entry>, f: nat, c: Item, d: Item)
    requires c.path != []
  {
    && |d.path| == |c.path| + 1
    && var u, v := c.path[|c.path| - 1], d.path[|c.path|];
    && v !in c.path && Carries(F, f, u, v)
    && d == Item(c.path + [v], Min(Ratio(F, f, u, v), c.ratio))
  }

  /** The children of c: the routes to t that end in one more step, and the longer trails. */
  ghost predicate Children(F: seq<Entry>, f: nat, t: NodeId, c: Item, done: seq<Item>, more: seq<Item>)
    requires c.path != []
  {
    && (forall i :: 0 <= i < |done| ==> Child(F, f, c, done[i]) && done[i].path[|c.path|] == t)
    && (forall i :: 0 <= i < |more| ==> Child(F, f, c, more[i]) && more[i].path[|c.path|] != t)
    && Different(done) && Different(more)
    && (forall v :: v !in c.path && Carries(F, f, c.path[|c.path| - 1], v) ==>
          Found(if v == t then done else more, c.path + [v]))
    && |more| <= |F|
  }

  ghost predicate Different(items: seq<Item>) {
    forall i, j :: 0 <= i < j < |items| ==> items[i].path != items[j].path
  }

  /** The children of c by the first n hops, as far as they end at t (or do not). */
  function Extended(c: Item, t: NodeId, hops: seq<Entry>, n: nat, atEnd: bool): (r: seq<Item>)
    requires n <= |hops|
    ensures |r| <= n
  {
    if n == 0 then []
    else
      var e := hops[n - 1];
      var before := Extended(c, t, hops, n - 1, atEnd);
      if e.v !in c.path && (e.v == t) == atEnd then before + [Item(c.path + [e.v], Min(e.ratio, c.ratio))] else before
  }

  lemma {:induction false} ExtendedAre(F: seq<Entry>, f: nat, t: NodeId, c: Item, n: nat, atEnd: bool)
    requires Keyed(F) && c.path != []
    requires n <= |NextHops(F, f, c.path[|c.path| - 1])|
    ensures var hops := NextHops(F, f, c.path[|c.path| - 1]);
            var r := Extended(c, t, hops, n, atEnd);
            && (forall i :: 0 <= i < |r| ==>
                  Child(F, f, c, r[i]) && (r[i].path[|c.path|] == t) == atEnd && r[i].path[|c.path|] in HopsTo(hops, n))
            && Different(r)
            && (forall j :: 0 <= j < n && hops[j].v !in c.path && (hops[j].v == t) == atEnd ==>
                  Found(r, c.path + [hops[j].v]))
  {
    if n > 0 {
      ExtendedAre(F, f, t, c, n - 1, atEnd);
      ExtendedNext(F, f, t, c, n, atEnd);
    }
  }

  ghost function HopsTo(hops: seq<Entry>, n: nat): set<NodeId>
    requires n <= |hops|
  {
    set j | 0 <= j < n :: hops[j].v
  }

  lemma HopIsChild(F: seq<Entry>, f: nat, c: Item, n: nat)
    requires Keyed(F) && c.path != []
    requires n < |NextHops(F, f, c.path[|c.path| - 1])|
    ensures var e := NextHops(F, f, c.path[|c.path| - 1])[n];
            e.v !in c.path ==> Child(F, f, c, Item(c.path + [e.v], Min(e.ratio, c.ratio)))
    ensures var hops := NextHops(F, f, c.path[|c.path| - 1]); hops[n].v !in HopsTo(hops, n)
  {
    var u := c.path[|c.path| - 1];
    NextHopsAre(F, f, u);
    var e := NextHops(F, f, u)[n];
    assert e in NextHops(F, f, u);
    var k :| 0 <= k < |F| && F[k] == e;
    RatioOfEntry(F, k);
    assert Carries(F, f, u, e.v);
  }

  lemma ExtendedNext(F: seq<Entry>, f: nat, t: NodeId, c: Item, n: nat, atEnd: bool)
    requires Keyed(F) && c.path != [] && n > 0
    requires n <= |NextHops(F, f, c.path[|c.path| - 1])|
    requires var hops := NextHops(F, f, c.path[|c.path| - 1]);
             var r := Extended(c, t, hops, n - 1, atEnd);
             && (forall i :: 0 <= i < |r| ==>
                   && Child(F, f, c, r[i]) && (r[i].path[|c.path|] == t) == atEnd
                   && r[i].path[|c.path|] in HopsTo(hops, n - 1))
             && Different(r)
             && (forall j :: 0 <= j < n - 1 && hops[j].v !in c.path && (hops[j].v == t) == atEnd ==>
                   Found(r, c.path + [hops[j].v]))
    ensures var hops := NextHops(F, f, c.path[|c.path| - 1]);
            var r := Extended(c, t, hops, n, atEnd);
            && (forall i :: 0 <= i < |r| ==>
                  Child(F, f, c, r[i]) && (r[i].path[|c.path|] == t) == atEnd && r[i].path[|c.path|] in HopsTo(hops, n))
            && Different(r)
            && (forall j :: 0 <= j < n && hops[j].v !in c.path && (hops[j].v == t) == atEnd ==>
                  Found(r, c.path + [hops[j].v]))
  {
    hide Keyed;
    hide NextHops;
    hide Carries;
    hide Ratio;
    var hops := NextHops(F, f, c.path[|c.path| - 1]);
    var before, r := Extended(c, t, hops, n - 1, atEnd), Extended(c, t, hops, n, atEnd);
    HopIsChild(F, f, c, n - 1);
    assert forall i :: 0 <= i < |before| ==> r[i] == before[i];
    assert hops[n - 1].v in HopsTo(hops, n) && HopsTo(hops, n - 1) <= HopsTo(hops, n);
    forall j | 0 <= j < n && hops[j].v !in c.path && (hops[j].v == t) == atEnd ensures Found(r, c.path + [hops[j].v]) {
      if j < n - 1 {
        assert Found(before, c.path + [hops[j].v]);
        var i :| 0 <= i < |before| && before[i].path == c.path + [hops[j].v];
        assert r[i].path == c.path + [hops[j].v];
      } else {
        assert r[|r| - 1].path == c.path + [hops[j].v];
      }
    }
  }

  /** Extends path c by every next hop that does not close a loop. */
  method Expand(F: seq<Entry>, f: nat, t: NodeId, c: Item) returns (done: seq<Item>, more: seq<Item>)
    requires Keyed(F) && c.path != []
    ensures Children(F, f, t, c, done, more)
  {
    var hops := NextHops(F, f, c.path[|c.path| - 1]);
    done, more := [], [];
    for n := 0 to |hops|
      invariant done == Extended(c, t, hops, n, true) && more == Extended(c, t, hops, n, false)
    {
      var v := hops[n].v;
      if v in c.path {
        continue;
      }
      var child := Item(c.path + [v], Min(hops[n].ratio, c.ratio));
      if v == t {
        done := done + [child];
      } else {
        more := more + [child];
      }
    }
    ChildrenOf(F, f, t, c);
  }

  lemma ChildrenOf(F: seq<Entry>, f: nat, t: NodeId, c: Item)
    requires Keyed(F) && c.path != []
    ensures var hops := NextHops(F, f, c.path[|c.path| - 1]);
            Children(F, f, t, c, Extended(c, t, hops, |hops|, true), Extended(c, t, hops, |hops|, false))
  {
    hide Keyed;
    hide Ratio;
    hide Child;
    hide Different;
    hide Extended;
    hide Found;
    var u := c.path[|c.path| - 1];
    var hops := NextHops(F, f, u);
    NextHopsAre(F, f, u);
    ExtendedAre(F, f, t, c, |hops|, true);
    ExtendedAre(F, f, t, c, |hops|, false);
    forall v | v !in c.path && Carries(F, f, u, v)
      ensures Found(Extended(c, t, hops, |hops|, v == t), c.path + [v])
    {
      var i :| 0 <= i < |F| && Carrying(F[i], f, u) && F[i].v == v;
      assert F[i] in hops;
      var j :| 0 <= j < |hops| && hops[j] == F[i];
      assert hops[j].v == v;
    }
  }

  // ----- what the search keeps -----

  /** Queued paths are trails that have not come to t; found ones are routes; both carry their bottleneck. */
  ghost predicate Sound(F: seq<Entry>, f: nat, s: NodeId, t: NodeId, queue: seq<Item>, routes: seq<Item>) {
    && (forall i :: 0 <= i < |queue| ==> OpenTrail(F, f, s, t, queue[i]))
    && (forall i :: 0 <= i < |routes| ==> ClosedTrail(F, f, s, t, routes[i]))
  }

  ghost predicate OpenTrail(F: seq<Entry>, f: nat, s: NodeId, t: NodeId, c: Item) {
    Trail(F, f, s, c.path) && c.ratio == Bottleneck(F, f, c.path) && t !in c.path[1..]
  }

  ghost predicate ClosedTrail(F: seq<Entry>, f: nat, s: NodeId, t: NodeId, c: Item) {
    Route(F, f, s, t, c.path) && c.ratio == Bottleneck(F, f, c.path)
  }

  /** No queued or found path is a prefix of another. */
  ghost predicate PrefixFree(queue: seq<Item>, routes: seq<Item>) {
    && Different(queue) && Different(routes)
    && forall a, b :: a in queue + routes && b in queue + routes && a.path <= b.path ==> a == b
  }

  ghost predicate Complete(F: seq<Entry>, f: nat, s: NodeId, t: NodeId, queue: seq<Item>, routes: seq<Item>) {
    forall p :: Route(F, f, s, t, p) ==> Found(routes, p) || Pending(queue, p)
  }

  ghost predicate Pending(queue: seq<Item>, p: Path) {
    exists i :: 0 <= i < |queue| && queue[i].path <= p
  }

  /** Breadth first: queue and routes by non-decreasing length, never more than one apart. */
  ghost predicate ByLength(queue: seq<Item>, routes: seq<Item>) {
    && Ascending(queue) && Ascending(routes)
    && (forall i :: 0 <= i < |queue| ==> |queue[i].path| <= |queue[0].path| + 1)
    && (forall i :: 0 <= i < |routes| && |queue| > 0 ==> |routes[i].path| <= |queue[0].path| + 1)
  }

  ghost predicate Ascending(items: seq<Item>) {
    forall i, j :: 0 <= i < j < |items| ==> |items[i].path| <= |items[j].path|
  }

  lemma ChildExtends(F: seq<Entry>, f: nat, s: NodeId, t: NodeId, c: Item, d: Item)
    requires OpenTrail(F, f, s, t, c) && Child(F, f, c, d)
    ensures d.path[|c.path|] == t ==> ClosedTrail(F, f, s, t, d)
    ensures d.path[|c.path|] != t ==> OpenTrail(F, f, s, t, d)
  {
    hide Carries;
    hide Ratio;
    var v := d.path[|c.path|];
    assert d.path[..|c.path|] == c.path && d.path == c.path + [v];
    forall h | 0 <= h < |d.path| - 1 ensures Step(F, f, d.path, h) {
      if h < |c.path| - 1 {
        assert Step(F, f, c.path, h);
      }
    }
    assert d.path[1..] == c.path[1..] + [v];
  }

  lemma SoundStep(
      F: seq<Entry>, f: nat, s: NodeId, t: NodeId, queue: seq<Item>, routes: seq<Item>, done: seq<Item>,
      more: seq<Item>)
    requires queue != [] && Sound(F, f, s, t, queue, routes) && queue[0].path != []
    requires Children(F, f, t, queue[0], done, more)
    ensures Sound(F, f, s, t, queue[1..] + more, routes + done)
  {
    hide OpenTrail;
    hide ClosedTrail;
    hide Child;
    var c := queue[0];
    forall i | 0 <= i < |more| ensures OpenTrail(F, f, s, t, more[i]) {
      ChildHasLength(F, f, c, more[i]);
      ChildExtends(F, f, s, t, c, more[i]);
    }
    forall i | 0 <= i < |done| ensures ClosedTrail(F, f, s, t, done[i]) {
      ChildHasLength(F, f, c, done[i]);
      ChildExtends(F, f, s, t, c, done[i]);
    }
  }

  lemma ChildHasLength(F: seq<Entry>, f: nat, c: Item, d: Item)
    requires c.path != [] && Child(F, f, c, d)
    ensures |d.path| == |c.path| + 1 && c.path <= d.path && d.path == c.path + [d.path[|c.path|]]
  {
  }

  /** An item still waiting is no longer c, and c is not among the found ones. */
  lemma PoppedIsGone(F: seq<Entry>, f: nat, s: NodeId, t: NodeId, queue: seq<Item>, routes: seq<Item>)
    requires queue != [] && Sound(F, f, s, t, queue, routes) && Different(queue)
    ensures queue[0] !in queue[1..] + routes
  {
    hide Trail;
    forall i | 0 <= i < |routes| ensures routes[i] != queue[0] {
      var p := routes[i].path;
      assert p[1..][|p| - 2] == t && t in p[1..];
    }
    forall i | 0 <= i < |queue[1..]| ensures queue[1..][i] != queue[0] {
      assert queue[1..][i] == queue[i + 1];
    }
  }

  /** What is kept is unrelated to a child of c. */
  lemma ChildUnrelated(c: Item, d: Item, q: Item)
    requires |d.path| == |c.path| + 1 && c.path <= d.path && q != c
    requires c.path <= q.path ==> c == q
    requires q.path <= c.path ==> q == c
    ensures Unrelated(q.path, d.path)
  {
    assert c.path == d.path[..|c.path|];
    assert d.path <= q.path ==> c.path <= q.path;
    assert q.path <= d.path && |q.path| <= |c.path| ==> q.path <= c.path;
    assert q.path <= d.path && |q.path| > |c.path| ==> q.path == d.path;
  }

  ghost predicate Unrelated(a: Path, b: Path) {
    !(a <= b) && !(b <= a)
  }

  /** Two collections, each prefix-free, with no relations between them, are prefix-free together. */
  lemma CombinePrefixFree(rest: seq<Item>, routes: seq<Item>, more: seq<Item>, done: seq<Item>)
    requires Different(rest) && Different(routes) && Different(more) && Different(done)
    requires forall a, b :: a in rest + routes && b in rest + routes && a.path <= b.path ==> a == b
    requires forall a, b :: a in more + done && b in more + done && a.path <= b.path ==> a == b
    requires forall a, b :: a in rest + routes && b in more + done ==> Unrelated(a.path, b.path)
    ensures PrefixFree(rest + more, routes + done)
  {
    forall i, j | 0 <= i < |rest| && 0 <= j < |more| ensures rest[i].path != more[j].path {
      assert rest[i] in rest + routes && more[j] in more + done;
      assert Unrelated(rest[i].path, more[j].path);
    }
    forall i, j | 0 <= i < |routes| && 0 <= j < |done| ensures routes[i].path != done[j].path {
      assert routes[i] in rest + routes && done[j] in more + done;
      assert Unrelated(routes[i].path, done[j].path);
    }
    forall a, b | a in (rest + more) + (routes + done) && b in (rest + more) + (routes + done) && a.path <= b.path
      ensures a == b
    {
      assert a in rest + routes || a in more + done;
      assert b in rest + routes || b in more + done;
      assert a in rest + routes && b in more + done ==> Unrelated(a.path, b.path);
      assert b in rest + routes && a in more + done ==> Unrelated(b.path, a.path);
    }
  }

  /** Siblings are unrelated unless they are the same. */
  lemma SiblingsDiffer(F: seq<Entry>, f: nat, t: NodeId, c: Item, done: seq<Item>, more: seq<Item>)
    requires c.path != [] && Children(F, f, t, c, done, more)
    ensures forall a, b :: a in more + done && b in more + done && a.path <= b.path ==> a == b
    ensures forall d :: d in more + done ==> Child(F, f, c, d)
  {
    hide Carries;
    hide Found;
    hide Ratio;
    forall a, b | a in more + done && b in more + done && a.path <= b.path ensures a == b {
      assert a.path == b.path;
    }
  }

  lemma PrefixFreeStep(
      F: seq<Entry>, f: nat, s: NodeId, t: NodeId, queue: seq<Item>, routes: seq<Item>, done: seq<Item>,
      more: seq<Item>)
    requires queue != [] && queue[0].path != [] && Sound(F, f, s, t, queue, routes) && PrefixFree(queue, routes)
    requires Children(F, f, t, queue[0], done, more)
    ensures PrefixFree(queue[1..] + more, routes + done)
  {
    hide Sound;
    hide Child;
    hide Unrelated;
    hide Found;
    hide Carries;
    var c, rest := queue[0], queue[1..];
    PoppedIsGone(F, f, s, t, queue, routes);
    SiblingsDiffer(F, f, t, c, done, more);
    assert forall q :: q in rest + routes ==> q in queue + routes;
    forall q, d | q in rest + routes && d in more + done ensures Unrelated(q.path, d.path) {
      assert c in queue + routes;
      ChildHasLength(F, f, c, d);
      ChildUnrelated(c, d, q);
    }
    CombinePrefixFree(rest, routes, more, done);
  }

  lemma CompleteStep(
      F: seq<Entry>, f: nat, s: NodeId, t: NodeId, queue: seq<Item>, routes: seq<Item>, done: seq<Item>,
      more: seq<Item>)
    requires queue != [] && queue[0].path != [] && Complete(F, f, s, t, queue, routes)
    requires OpenTrail(F, f, s, t, queue[0]) && Children(F, f, t, queue[0], done, more)
    ensures Complete(F, f, s, t, queue[1..] + more, routes + done)
  {
    hide Child;
    hide Carries;
    hide Different;
    var c := queue[0];
    forall p | Route(F, f, s, t, p) ensures Found(routes + done, p) || Pending(queue[1..] + more, p) {
      if i :| 0 <= i < |routes| && routes[i].path == p {
        assert (routes + done)[i].path == p;
      } else {
        assert Pending(queue, p);
        var i :| 0 <= i < |queue| && queue[i].path <= p;
        if i > 0 {
          assert (queue[1..] + more)[i - 1].path <= p;
        } else {
          NextOnRoute(F, f, s, t, c, p);
          var v := p[|c.path|];
          if v == t {
            assert Found(done, c.path + [v]);
            var k :| 0 <= k < |done| && done[k].path == c.path + [v];
            assert (routes + done)[|routes| + k].path == p;
          } else {
            assert Found(more, c.path + [v]);
            var k :| 0 <= k < |more| && more[k].path == c.path + [v];
            assert (queue[1..] + more)[|queue| - 1 + k].path <= p;
          }
        }
      }
    }
  }

  /** A route that begins with an open trail goes on with a step to a new node. */
  lemma NextOnRoute(F: seq<Entry>, f: nat, s: NodeId, t: NodeId, c: Item, p: Path)
    requires OpenTrail(F, f, s, t, c) && Route(F, f, s, t, p) && c.path <= p
    ensures |c.path| < |p|
    ensures var v := p[|c.path|];
            && v !in c.path && Carries(F, f, c.path[|c.path| - 1], v) && c.path + [v] <= p
            && (v == t ==> p == c.path + [v])
  {
    hide Carries;
    var n := |c.path|;
    assert p[1..][|p| - 2] == t && t in p[1..];
    assert n < |p|;
    assert Step(F, f, p, n - 1);
    assert forall h :: 0 <= h < n ==> c.path[h] == p[h];
    if p[n] == t {
      assert n == |p| - 1;
    }
  }

  lemma ByLengthStep(
      F: seq<Entry>, f: nat, t: NodeId, queue: seq<Item>, routes: seq<Item>, done: seq<Item>, more: seq<Item>)
    requires queue != [] && queue[0].path != [] && ByLength(queue, routes)
    requires Children(F, f, t, queue[0], done, more)
    ensures ByLength(queue[1..] + more, routes + done)
  {
    hide Child;
    hide Carries;
    hide Found;
    hide Different;
    var c := queue[0];
    forall i | 0 <= i < |more| ensures |more[i].path| == |c.path| + 1 {
      ChildHasLength(F, f, c, more[i]);
    }
    forall i | 0 <= i < |done| ensures |done[i].path| == |c.path| + 1 {
      ChildHasLength(F, f, c, done[i]);
    }
  }

  // ----- the search ends -----

  /** All nodes a trail out of s can visit. */
  ghost function Nodes(F: seq<Entry>, s: NodeId): set<NodeId> {
    {s} + set i | 0 <= i < |F| :: F[i].v
  }

  /** A trail is simple, so it is no longer than the number of nodes. */
  lemma TrailIsBounded(F: seq<Entry>, f: nat, s: NodeId, p: Path)
    requires Trail(F, f, s, p)
    ensures |p| <= |Nodes(F, s)|
  {
    forall x | x in Members(p) ensures x in Nodes(F, s) {
      var h :| 0 <= h < |p| && p[h] == x;
      if h > 0 {
        assert Step(F, f, p, h - 1);
      }
    }
    CardMembers(p);
    CardSubset(Members(p), Nodes(F, s));
  }

  /** The most trails that a trail with k nodes still to visit, and d ways on at each, can lead to. */
  ghost function Potential(d: nat, k: nat): nat {
    if k == 0 then 1 else 1 + Times(d, Potential(d, k - 1))
  }

  /** The work that the queue stands for, on n nodes. */
  ghost function Work(d: nat, n: nat, queue: seq<Item>): nat {
    if queue == [] then 0
    else Potential(d, if |queue[0].path| <= n then n - |queue[0].path| else 0) + Work(d, n, queue[1..])
  }

  lemma {:induction false} WorkAdds(d: nat, n: nat, a: seq<Item>, b: seq<Item>)
    ensures Work(d, n, a + b) == Work(d, n, a) + Work(d, n, b)
  {
    if a == [] {
      assert a + b == b;
    } else {
      WorkAdds(d, n, a[1..], b);
      assert (a + b)[1..] == a[1..] + b;
    }
  }

  lemma {:induction false} WorkOfLevel(d: nat, n: nat, items: seq<Item>, len: nat)
    requires len <= n && forall i :: 0 <= i < |items| ==> |items[i].path| == len
    ensures Work(d, n, items) == Times(|items|, Potential(d, n - len))
  {
    if items != [] {
      WorkOfLevel(d, n, items[1..], len);
    }
  }

  /** Replacing a path by its children leaves less work. */
  lemma WorkShrinks(
      F: seq<Entry>, f: nat, s: NodeId, t: NodeId, queue: seq<Item>, routes: seq<Item>, done: seq<Item>,
      more: seq<Item>)
    requires queue != [] && queue[0].path != [] && Sound(F, f, s, t, queue, routes)
    requires Children(F, f, t, queue[0], done, more)
    ensures var n := |Nodes(F, s)|; Work(|F|, n, queue[1..] + more) < Work(|F|, n, queue)
  {
    hide Children;
    hide OpenTrail;
    hide ClosedTrail;
    hide Nodes;
    assert OpenTrail(F, f, s, t, queue[0]);
    ChildrenLevel(F, f, s, t, queue[0], done, more);
    LevelShrinks(|F|, |Nodes(F, s)|, queue, more);
  }

  lemma ChildrenLevel(F: seq<Entry>, f: nat, s: NodeId, t: NodeId, c: Item, done: seq<Item>, more: seq<Item>)
    requires OpenTrail(F, f, s, t, c) && c.path != [] && Children(F, f, t, c, done, more)
    ensures |more| <= |F| && |c.path| <= |Nodes(F, s)|
    ensures forall i :: 0 <= i < |more| ==> |more[i].path| == |c.path| + 1 <= |Nodes(F, s)|
  {
    hide Child;
    hide Found;
    hide Carries;
    hide Different;
    hide Trail;
    hide Nodes;
    TrailIsBounded(F, f, s, c.path);
    forall i | 0 <= i < |more| ensures |more[i].path| == |c.path| + 1 <= |Nodes(F, s)| {
      ChildHasLength(F, f, c, more[i]);
      ChildExtends(F, f, s, t, c, more[i]);
      TrailIsBounded(F, f, s, more[i].path);
    }
  }

  lemma LevelShrinks(d: nat, n: nat, queue: seq<Item>, more: seq<Item>)
    requires queue != [] && |more| <= d && |queue[0].path| <= n
    requires forall i :: 0 <= i < |more| ==> |more[i].path| == |queue[0].path| + 1 <= n
    ensures Work(d, n, queue[1..] + more) < Work(d, n, queue)
  {
    hide Potential;
    hide Times;
    var len := |queue[0].path|;
    WorkAdds(d, n, queue[1..], more);
    PotentialPositive(d, n - len);
    if more != [] {
      assert |more[0].path| == len + 1;
      WorkOfLevel(d, n, more, len + 1);
      PotentialCovers(d, n - len, |more|);
    }
  }

  lemma PotentialPositive(d: nat, k: nat)
    ensures Potential(d, k) > 0
  {
  }

  lemma PotentialCovers(d: nat, k: nat, m: nat)
    requires k > 0 && m <= d
    ensures Times(m, Potential(d, k - 1)) < Potential(d, k)
  {
    if m < d {
      TimesGrows(m, d, Potential(d, k - 1));
    }
  }

  /** traverse_graph_iterative: exact enumeration of the routes of flow f from s to t.  It ends on every
      dictionary, with or without cycles in the flow. */
  method TraverseGraphIterative(F: seq<Entry>, f: nat, s: NodeId, t: NodeId) returns (routes: seq<Item>)
    requires Keyed(F)
    ensures Enumerates(F, f, s, t, routes)
  {
    hide Keyed;
    hide Children;
    hide Complete;
    hide PrefixFree;
    hide ByLength;
    hide Trail;
    hide Route;
    routes := [];
    var queue := [Item([s], 1.0)];
    SearchBegins(F, f, s, t);
    while |queue| != 0
      invariant Sound(F, f, s, t, queue, routes) && Complete(F, f, s, t, queue, routes)
      invariant PrefixFree(queue, routes) && ByLength(queue, routes)
      decreases Work(|F|, |Nodes(F, s)|, queue)
    {
      var current := queue[0];
      TrailNonempty(F, f, s, t, current);
      var done, more := Expand(F, f, t, current);
      SoundStep(F, f, s, t, queue, routes, done, more);
      CompleteStep(F, f, s, t, queue, routes, done, more);
      PrefixFreeStep(F, f, s, t, queue, routes, done, more);
      ByLengthStep(F, f, t, queue, routes, done, more);
      WorkShrinks(F, f, s, t, queue, routes, done, more);
      queue := queue[1..] + more;
      routes := routes + done;
    }
    SearchEnds(F, f, s, t, routes);
  }

  lemma TrailNonempty(F: seq<Entry>, f: nat, s: NodeId, t: NodeId, c: Item)
    requires OpenTrail(F, f, s, t, c)
    ensures c.path != []
  {
  }

  lemma SearchBegins(F: seq<Entry>, f: nat, s: NodeId, t: NodeId)
    ensures var queue := [Item([s], 1.0)];
            && Sound(F, f, s, t, queue, []) && Complete(F, f, s, t, queue, [])
            && PrefixFree(queue, []) && ByLength(queue, [])
  {
    var queue := [Item([s], 1.0)];
    forall p | Route(F, f, s, t, p) ensures Pending(queue, p) {
      assert queue[0].path <= p;
    }
  }

  lemma SearchEnds(F: seq<Entry>, f: nat, s: NodeId, t: NodeId, routes: seq<Item>)
    requires Sound(F, f, s, t, [], routes) && Complete(F, f, s, t, [], routes) && PrefixFree([], routes)
    requires ByLength([], routes)
    ensures Enumerates(F, f, s, t, routes)
  {
    hide Route;
    forall i | 0 <= i < |routes|
      ensures Route(F, f, s, t, routes[i].path) && routes[i].ratio == Bottleneck(F, f, routes[i].path)
    {
      assert ClosedTrail(F, f, s, t, routes[i]);
    }
  }
}
