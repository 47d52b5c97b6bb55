/** Tagging paths and choosing them.  Every path of a trial gets a tag, counted up per pair of end points; the
    tag travels in the type-of-service byte of a packet, whose upper six bits are the differentiated services
    codepoint (section 3 of RFC 2474).  The traffic generator picks the path of a packet by its share of the
    flow, and the tag of that path is what the switches see. */
module Tags {
  import opened Basics
  import opened Products
  import opened Traversal
  import opened Decomposition

  type Ends = (NodeId, NodeId)

  function EndsOf(p: Path): Ends
    requires p != []
  {
    (p[0], p[|p| - 1])
  }

  function Count(pairs: seq<Ends>, e: Ends): nat {
    if pairs == [] then 0 else Count(pairs[..|pairs| - 1], e) + if pairs[|pairs| - 1] == e then 1 else 0
  }

  /** The tag of the path at position p, when all paths are listed in the order in which they are tagged. */
  function TagAt(first: nat, pairs: seq<Ends>, p: nat): nat
    requires p < |pairs|
  {
    first + Count(pairs[..p], pairs[p])
  }

  lemma {:induction false} CountGrows(pairs: seq<Ends>, p: nat, q: nat, e: Ends)
    requires p <= q <= |pairs|
    ensures Count(pairs[..p], e) <= Count(pairs[..q], e)
    ensures p < q && pairs[p] == e ==> Count(pairs[..p], e) < Count(pairs[..q], e)
  {
    if p < q {
      assert pairs[..q][..q - 1] == pairs[..q - 1];
      CountGrows(pairs, p, q - 1, e);
    }
  }

  /** Paths between the same end points have different tags. */
  lemma TagsDiffer(first: nat, pairs: seq<Ends>, p: nat, q: nat)
    requires p < q < |pairs| && pairs[p] == pairs[q]
    ensures TagAt(first, pairs, p) < TagAt(first, pairs, q)
  {
    CountGrows(pairs, p, q, pairs[p]);
  }

  /** ... and those tags are consecutive: tag first + m is in use exactly when there are more than m paths. */
  lemma {:induction false} TagsAreConsecutive(first: nat, pairs: seq<Ends>, e: Ends, m: nat)
    ensures m < Count(pairs, e) <==>
              exists p :: 0 <= p < |pairs| && pairs[p] == e && TagAt(first, pairs, p) == first + m
  {
    if pairs != [] {
      var n := |pairs| - 1;
      var init := pairs[..n];
      TagsAreConsecutive(first, init, e, m);
      assert forall p :: 0 <= p < n ==> init[..p] == pairs[..p];
      assert forall p :: 0 <= p < n ==> init[p] == pairs[p] && TagAt(first, init, p) == TagAt(first, pairs, p);
      if m < Count(pairs, e) && m >= Count(init, e) {
        assert pairs[n] == e && TagAt(first, pairs, n) == first + m;
      }
    }
  }

  /** The counters of one trial: a dictionary with a default value. */
  class TagTable {
    const first: nat
    var counters: map<Ends, nat>
    /** The end points of the paths tagged so far. */
    ghost var issued: seq<Ends>

    ghost predicate Valid()
      reads this
    {
      forall e :: (if e in counters then counters[e] else first) == first + Count(issued, e)
    }

    constructor (first: nat)
      ensures Valid() && this.first == first && issued == []
    {
      this.first := first;
      counters := map[];
      issued := [];
    }

    method Next(e: Ends) returns (tag: nat)
      requires Valid()
      modifies this
      ensures Valid() && issued == old(issued) + [e]
      ensures tag == TagAt(first, issued, |old(issued)|)
    {
      tag := if e in counters then counters[e] else first;
      counters := counters[e := tag + 1];
      issued := issued + [e];
      assert issued[..|old(issued)|] == old(issued);
    }

    /** simple_paths_to_flow_json: each path is counted under its own end points. */
    method TagPaths(paths: seq<Path>) returns (tags: seq<nat>)
      requires Valid() && forall i :: 0 <= i < |paths| ==> paths[i] != []
      modifies this
      ensures Valid() && issued == old(issued) + PairsOf(paths) && |tags| == |paths|
      ensures forall i :: 0 <= i < |tags| ==> tags[i] == TagAt(first, issued, |old(issued)| + i)
    {
      tags := [];
      for i := 0 to |paths|
        invariant Valid() && |tags| == i && issued == old(issued) + PairsOf(paths)[..i]
        invariant forall j :: 0 <= j < i ==> tags[j] == TagAt(first, issued, |old(issued)| + j)
      {
        ghost var before := issued;
        var tag := Next(EndsOf(paths[i]));
        KeepsTags(first, before, issued);
        assert PairsOf(paths)[..i + 1] == PairsOf(paths)[..i] + [EndsOf(paths[i])];
        tags := tags + [tag];
      }
      assert PairsOf(paths)[..|paths|] == PairsOf(paths);
    }

    /** install_route: every path is counted under the end points of its flow. */
    method TagRoute(source: NodeId, destination: NodeId, paths: seq<Path>) returns (tags: seq<nat>)
      requires Valid()
      modifies this
      ensures Valid() && issued == old(issued) + Repeat((source, destination), |paths|) && |tags| == |paths|
      ensures forall i :: 0 <= i < |tags| ==> tags[i] == TagAt(first, issued, |old(issued)| + i)
    {
      tags := [];
      for i := 0 to |paths|
        invariant Valid() && |tags| == i && issued == old(issued) + Repeat((source, destination), i)
        invariant forall j :: 0 <= j < i ==> tags[j] == TagAt(first, issued, |old(issued)| + j)
      {
        ghost var before := issued;
        var tag := Next((source, destination));
        KeepsTags(first, before, issued);
        tags := tags + [tag];
      }
    }
  }

  function PairsOf(paths: seq<Path>): (pairs: seq<Ends>)
    requires forall i :: 0 <= i < |paths| ==> paths[i] != []
    ensures |pairs| == |paths| && forall i :: 0 <= i < |paths| ==> pairs[i] == (paths[i][0], paths[i][|paths[i]| - 1])
  {
    seq(|paths|, i requires 0 <= i < |paths| => EndsOf(paths[i]))
  }

  /** Tagging more paths does not change the tags given before. */
  lemma KeepsTags(first: nat, a: seq<Ends>, b: seq<Ends>)
    requires a <= b
    ensures forall p :: 0 <= p < |a| ==> TagAt(first, b, p) == TagAt(first, a, p)
  {
    assert forall p :: 0 <= p < |a| ==> a[..p] == b[..p];
  }

  // ----- the whole trial -----

  /** How many paths the first n flows have; ends[f] lists the end points that the paths of flow f are counted under. */
  ghost function Offset(ends: seq<seq<Ends>>, n: nat): nat
    requires n <= |ends|
  {
    if n == 0 then 0 else Offset(ends, n - 1) + |ends[n - 1]|
  }

  lemma {:induction false} OffsetsApart(ends: seq<seq<Ends>>, f: nat, g: nat)
    requires f < g <= |ends|
    ensures Offset(ends, f) + |ends[f]| <= Offset(ends, g)
  {
    if f < g - 1 {
      OffsetsApart(ends, f, g - 1);
    }
  }

  /** The tags of a trial: path i of flow f has the tag of its position among all paths. */
  ghost predicate Tagged(ends: seq<seq<Ends>>, first: nat, pairs: seq<Ends>, tags: seq<seq<nat>>)
    ensures Tagged(ends, first, pairs, tags) ==> |tags| == |ends|
  {
    |tags| == |ends| && TaggedBelow(ends, first, pairs, tags, |ends|)
  }

  /** The same for the first n flows. */
  ghost predicate TaggedBelow(ends: seq<seq<Ends>>, first: nat, pairs: seq<Ends>, tags: seq<seq<nat>>, n: nat)
    requires n <= |ends| && n <= |tags|
  {
    && |pairs| == Offset(ends, n) && (forall f :: 0 <= f < n ==> |tags[f]| == |ends[f]|)
    && forall f, i :: 0 <= f < n && 0 <= i < |ends[f]| ==> TaggedAt(ends, first, pairs, tags, f, i)
  }

  ghost predicate TaggedAt(ends: seq<seq<Ends>>, first: nat, pairs: seq<Ends>, tags: seq<seq<nat>>, f: nat, i: nat)
    requires f < |ends| && i < |ends[f]| && f < |tags|
  {
    && |tags[f]| == |ends[f]| && Offset(ends, f) + i < |pairs|
    && pairs[Offset(ends, f) + i] == ends[f][i]
    && tags[f][i] == TagAt(first, pairs, Offset(ends, f) + i)
  }

  /** Tagging one more flow. */
  lemma TagMore(
      ends: seq<seq<Ends>>, first: nat, before: seq<Ends>, after: seq<Ends>, tags: seq<seq<nat>>, more: seq<nat>,
      n: nat)
    requires n < |ends| && |tags| == n && TaggedBelow(ends, first, before, tags, n)
    requires after == before + ends[n] && |more| == |ends[n]|
    requires forall i :: 0 <= i < |more| ==> more[i] == TagAt(first, after, |before| + i)
    ensures TaggedBelow(ends, first, after, tags + [more], n + 1)
  {
    KeepsTags(first, before, after);
    forall f, i | 0 <= f < n + 1 && 0 <= i < |ends[f]| ensures TaggedAt(ends, first, after, tags + [more], f, i) {
      if f < n {
        assert TaggedAt(ends, first, before, tags, f, i);
        OffsetsApart(ends, f, n);
      }
    }
  }

  ghost predicate Usable(flows: seq<seq<Path>>) {
    forall f, i :: 0 <= f < |flows| && 0 <= i < |flows[f]| ==> flows[f][i] != []
  }

  ghost function EndsOfFlows(flows: seq<seq<Path>>): (ends: seq<seq<Ends>>)
    requires Usable(flows)
    ensures |ends| == |flows| && forall f :: 0 <= f < |flows| ==> ends[f] == PairsOf(flows[f])
  {
    seq(|flows|, f requires 0 <= f < |flows| => PairsOf(flows[f]))
  }

  /** Tags the paths of all flows of a path-hopping trial, each under its own end points, from 0. */
  method TagFlows(flows: seq<seq<Path>>) returns (tags: seq<seq<nat>>, ghost pairs: seq<Ends>)
    requires Usable(flows)
    ensures Tagged(EndsOfFlows(flows), 0, pairs, tags)
  {
    hide TaggedBelow;
    hide TagTable.Valid;
    ghost var ends := EndsOfFlows(flows);
    var table := new TagTable(0);
    tags := [];
    NothingTagged(ends, 0);
    for n := 0 to |flows|
      invariant table.Valid() && table.first == 0 && |tags| == n && TaggedBelow(ends, 0, table.issued, tags, n)
    {
      ghost var before := table.issued;
      var more := table.TagPaths(flows[n]);
      TagMore(ends, 0, before, table.issued, tags, more, n);
      tags := tags + [more];
    }
    pairs := table.issued;
  }

  lemma NothingTagged(ends: seq<seq<Ends>>, first: nat)
    ensures TaggedBelow(ends, first, [], [], 0)
  {
  }

  /** A flow of the route provider. */
  datatype FlowRoutes = FlowRoutes(source: NodeId, destination: NodeId, paths: seq<Path>)

  ghost function EndsOfRoutes(routes: seq<FlowRoutes>): (ends: seq<seq<Ends>>)
    ensures |ends| == |routes|
    ensures forall f :: 0 <= f < |routes| ==>
              ends[f] == Repeat((routes[f].source, routes[f].destination), |routes[f].paths|)
  {
    seq(|routes|, f requires 0 <= f < |routes| => Repeat((routes[f].source, routes[f].destination), |routes[f].paths|))
  }

  /** install_routes: tags the paths of all flows, each under the end points of its flow, from 1. */
  method InstallRoutes(routes: seq<FlowRoutes>) returns (tags: seq<seq<nat>>, ghost pairs: seq<Ends>)
    ensures Tagged(EndsOfRoutes(routes), 1, pairs, tags)
  {
    hide TaggedBelow;
    hide TagTable.Valid;
    ghost var ends := EndsOfRoutes(routes);
    var table := new TagTable(1);
    tags := [];
    NothingTagged(ends, 1);
    for n := 0 to |routes|
      invariant table.Valid() && table.first == 1 && |tags| == n && TaggedBelow(ends, 1, table.issued, tags, n)
    {
      ghost var before := table.issued;
      var more := table.TagRoute(routes[n].source, routes[n].destination, routes[n].paths);
      TagMore(ends, 1, before, table.issued, tags, more, n);
      tags := tags + [more];
    }
    pairs := table.issued;
  }

  /** Different paths of a trial have different positions. */
  lemma PositionsDiffer(ends: seq<seq<Ends>>, f: nat, i: nat, g: nat, j: nat)
    requires f < |ends| && i < |ends[f]| && g < |ends| && j < |ends[g]| && (f != g || i != j)
    ensures Offset(ends, f) + i != Offset(ends, g) + j
  {
    if f < g {
      OffsetsApart(ends, f, g);
    } else if g < f {
      OffsetsApart(ends, g, f);
    }
  }

  /** Across all flows of a trial, different paths between the same end points have different tags. */
  lemma TrialTagsDiffer(
      ends: seq<seq<Ends>>, first: nat, pairs: seq<Ends>, tags: seq<seq<nat>>, f: nat, i: nat, g: nat, j: nat)
    requires Tagged(ends, first, pairs, tags)
    requires f < |ends| && i < |ends[f]| && g < |ends| && j < |ends[g]|
    requires ends[f][i] == ends[g][j] && (f != g || i != j)
    ensures |tags[f]| == |ends[f]| && |tags[g]| == |ends[g]| && tags[f][i] != tags[g][j]
  {
    assert TaggedAt(ends, first, pairs, tags, f, i) && TaggedAt(ends, first, pairs, tags, g, j);
    var p, q := Offset(ends, f) + i, Offset(ends, g) + j;
    PositionsDiffer(ends, f, i, g, j);
    if p < q {
      TagsDiffer(first, pairs, p, q);
    } else {
      TagsDiffer(first, pairs, q, p);
    }
  }

  // ----- the codepoint byte -----

  /** tag << 2 */
  function DscpValue(tag: nat): nat {
    4 * tag
  }

  /** The type-of-service byte of a packet: what a byte holds of the value set. */
  function TosByte(value: nat): nat {
    value % 256
  }

  /** The byte that marks the packets of a path. */
  function ByteOf(tag: nat): nat {
    TosByte(DscpValue(tag))
  }

  /** The two low bits of the byte are clear, and tags have the same byte exactly if they agree modulo 64. */
  lemma BytesOfTags(a: nat, b: nat)
    ensures ByteOf(a) % 4 == 0 && ByteOf(a) / 4 == a % 64
    ensures ByteOf(a) == ByteOf(b) <==> a % 64 == b % 64
  {
    hide ByteOf;
    ByteIs(a);
    ByteIs(b);
  }

  lemma ByteIs(a: nat)
    ensures ByteOf(a) == 4 * (a % 64)
  {
    var q, i := a / 64, a % 64;
    assert 4 * a == 256 * q + 4 * i;
  }

  /** Tags less than 64 apart have different bytes, tags 64 apart the same. */
  lemma NearbyBytes(a: nat, b: nat)
    requires a < b <= a + 64
    ensures ByteOf(a) == ByteOf(b) <==> b == a + 64
  {
    hide ByteOf;
    BytesOfTags(a, b);
  }

  /** No two of the paths with ends e have the same byte. */
  ghost predicate BytesDiffer(first: nat, pairs: seq<Ends>, e: Ends) {
    forall p, q :: 0 <= p < q < |pairs| && pairs[p] == e && pairs[q] == e ==>
      ByteOf(TagAt(first, pairs, p)) != ByteOf(TagAt(first, pairs, q))
  }

  /** The bytes of a pair of end points are pairwise different if and only if it has at most 64 paths. */
  lemma BytesDifferIff(first: nat, pairs: seq<Ends>, e: Ends)
    ensures BytesDiffer(first, pairs, e) <==> Count(pairs, e) <= 64
  {
    hide ByteOf;
    if Count(pairs, e) <= 64 {
      forall p, q | 0 <= p < q < |pairs| && pairs[p] == e && pairs[q] == e
        ensures ByteOf(TagAt(first, pairs, p)) != ByteOf(TagAt(first, pairs, q))
      {
        TagsDiffer(first, pairs, p, q);
        CountGrows(pairs, q, |pairs|, e);
        assert pairs[..|pairs|] == pairs;
        NearbyBytes(TagAt(first, pairs, p), TagAt(first, pairs, q));
      }
    } else {
      TagsAreConsecutive(first, pairs, e, 0);
      TagsAreConsecutive(first, pairs, e, 64);
      var p :| 0 <= p < |pairs| && pairs[p] == e && TagAt(first, pairs, p) == first + 0;
      var q :| 0 <= q < |pairs| && pairs[q] == e && TagAt(first, pairs, q) == first + 64;
      NearbyBytes(first, first + 64);
      assert p < q || q < p;
    }
  }

  // ----- choosing a path by weight -----

  function Cumulative(weights: seq<real>, n: nat): real
    requires n <= |weights|
  {
    Sum(weights[..n])
  }

  lemma CumulativeStep(weights: seq<real>, n: nat)
    requires n < |weights|
    ensures Cumulative(weights, n + 1) == Cumulative(weights, n) + weights[n] && Cumulative(weights, 0) == 0.0
  {
    SumLast(weights[..n + 1]);
    assert weights[..n + 1][..n] == weights[..n];
  }

  lemma {:induction false} CumulativeGrows(weights: seq<real>, m: nat, n: nat)
    requires NonNegative(weights) && m <= n <= |weights|
    ensures Cumulative(weights, m) <= Cumulative(weights, n)
  {
    if m < n {
      CumulativeGrows(weights, m, n - 1);
      CumulativeStep(weights, n - 1);
    }
  }

  /** The pick lies in the interval of path i. */
  ghost predicate InInterval(weights: seq<real>, pick: real, i: nat) {
    i < |weights| && Cumulative(weights, i) < pick <= Cumulative(weights, i + 1)
  }

  /** What the selector returns: a value, nothing at all, or an index error. */
  datatype Selection = Dscp(value: nat) | Nothing | NoSuchTag

  /** Path i is the first whose cumulative weight reaches the pick. */
  ghost predicate FirstToReach(weights: seq<real>, pick: real, i: nat) {
    && i < |weights| && pick <= Cumulative(weights, i + 1)
    && forall m :: 0 < m <= i ==> Cumulative(weights, m) < pick
  }

  method SelectDscp(weights: seq<real>, tags: seq<nat>, pick: real) returns (r: Selection, ghost chosen: nat)
    ensures r.Nothing? ==> forall m :: 0 < m <= |weights| ==> Cumulative(weights, m) < pick
    ensures !r.Nothing? ==> FirstToReach(weights, pick, chosen)
    ensures !r.Nothing? ==> r == if chosen < |tags| then Dscp(4 * tags[chosen]) else NoSuchTag
  {
    hide Sum;
    var accumulator := 0.0;
    chosen := 0;
    Nothing0(weights);
    for i := 0 to |weights|
      invariant accumulator == Cumulative(weights, i)
      invariant forall m :: 0 < m <= i ==> Cumulative(weights, m) < pick
    {
      CumulativeStep(weights, i);
      accumulator := accumulator + weights[i];
      if pick <= accumulator {
        chosen := i;
        return if i < |tags| then Dscp(DscpValue(tags[i])) else NoSuchTag, i;
      }
    }
    r := Nothing;
  }

  lemma Nothing0(weights: seq<real>)
    ensures Cumulative(weights, 0) == 0.0
  {
  }

  /** For a positive pick and weights that are not negative, the path selected is the one whose interval holds
      the pick; it is unique, and it carries some of the flow. */
  lemma SelectsByInterval(weights: seq<real>, pick: real, i: nat)
    requires NonNegative(weights) && pick > 0.0
    ensures FirstToReach(weights, pick, i) <==> InInterval(weights, pick, i)
    ensures InInterval(weights, pick, i) ==> weights[i] > 0.0
    ensures forall j: nat :: InInterval(weights, pick, i) && InInterval(weights, pick, j) ==> i == j
  {
    hide Cumulative;
    Nothing0(weights);
    if InInterval(weights, pick, i) {
      CumulativeStep(weights, i);
      forall m | 0 < m <= i ensures Cumulative(weights, m) < pick {
        CumulativeGrows(weights, m, i);
      }
      forall j: nat | j != i ensures !InInterval(weights, pick, j) {
        if j < i {
          CumulativeGrows(weights, j + 1, i);
        } else if i < j < |weights| {
          CumulativeGrows(weights, i + 1, j);
        }
      }
    }
  }

  /** Some path is selected as soon as the weights reach the pick. */
  lemma {:induction false} SomethingReached(weights: seq<real>, pick: real, n: nat) returns (i: nat)
    requires n <= |weights| && 0.0 < pick <= Cumulative(weights, n)
    ensures i < n && FirstToReach(weights, pick, i)
  {
    hide Cumulative;
    Nothing0(weights);
    if m: nat :| 0 < m < n && pick <= Cumulative(weights, m) {
      i := SomethingReached(weights, pick, m);
    } else {
      i := n - 1;
    }
  }

  /** The path selected carries some of the flow, unless the pick is zero and the first path carries nothing. */
  lemma PositiveWeightIff(weights: seq<real>, pick: real, i: nat)
    requires NonNegative(weights) && pick >= 0.0 && FirstToReach(weights, pick, i)
    ensures weights[i] > 0.0 <==> pick > 0.0 || weights[0] > 0.0
  {
    hide Cumulative;
    if pick > 0.0 {
      SelectsByInterval(weights, pick, i);
    } else {
      CumulativeStep(weights, 0);
    }
  }

  /** That can happen: all of the flow belongs on the second path, and a pick of zero takes the first. */
  lemma ZeroPick()
    ensures NonNegative([0.0, 1.0]) && Sum([0.0, 1.0]) == 1.0
    ensures FirstToReach([0.0, 1.0], 0.0, 0) && [0.0, 1.0][0] == 0.0
  {
    var weights := [0.0, 1.0];
    CumulativeStep(weights, 0);
    CumulativeStep(weights, 1);
    assert weights[..2] == weights;
  }

  /** Which paths a pick in (0, 1] can select at all, whatever the weights sum to: those that have weight and begin
      below one. */
  lemma SelectableIff(weights: seq<real>, i: nat)
    requires NonNegative(weights) && i < |weights|
    ensures (exists pick :: 0.0 < pick <= 1.0 && FirstToReach(weights, pick, i)) <==>
            weights[i] > 0.0 && Cumulative(weights, i) < 1.0
  {
    hide Cumulative;
    hide FirstToReach;
    if pick :| 0.0 < pick <= 1.0 && FirstToReach(weights, pick, i) {
      SelectsByInterval(weights, pick, i);
    }
    if weights[i] > 0.0 && Cumulative(weights, i) < 1.0 {
      Nothing0(weights);
      CumulativeGrows(weights, 0, i);
      CumulativeStep(weights, i);
      var pick := if Cumulative(weights, i + 1) <= 1.0 then Cumulative(weights, i + 1) else 1.0;
      SelectsByInterval(weights, pick, i);
    }
  }

  /** With the splitting ratios of a conserved F every pick in (0, 1 - noise] selects a route: only a pick above that
      can make the selector return nothing.  Without noise no pick in (0, 1] can. */
  lemma RouteIsSelected(F: seq<Entry>, f: nat, s: NodeId, t: NodeId, routes: seq<Item>, pick: real) returns (i: nat)
    requires Conserved(F, f, s, t) && Enumerates(F, f, s, t, routes) && 0.0 < pick <= 1.0 - NoiseOf(F, f)
    ensures NonNegative(RatiosOf(routes)) && FirstToReach(RatiosOf(routes), pick, i)
    ensures InInterval(RatiosOf(routes), pick, i)
  {
    hide Conserved;
    hide Enumerates;
    var weights := RatiosOf(routes);
    forall q | 0 <= q < |routes| ensures weights[q] >= 0.0 {
      RatioIsPositive(F, f, s, t, routes, q);
    }
    RatiosSumToAtLeast(F, f, s, t, routes);
    assert weights[..|weights|] == weights;
    i := SomethingReached(weights, pick, |weights|);
    SelectsByInterval(weights, pick, i);
  }

  /** From pick to path.  Let the ratios of a flow be non-negative with a sum of one or more.  Then every pick in
      (0, 1] selects one path, the one whose interval holds the pick; and if its pair of end points has at most
      64 paths in the trial, only that path among them has the byte that is sent. */
  lemma SelectionIdentifiesPath(
      ends: seq<seq<Ends>>, first: nat, pairs: seq<Ends>, tags: seq<seq<nat>>, f: nat, weights: seq<real>, pick: real)
      returns (chosen: nat)
    requires Tagged(ends, first, pairs, tags) && f < |ends| && |weights| == |ends[f]| == |tags[f]|
    requires NonNegative(weights) && Sum(weights) >= 1.0 && 0.0 < pick <= 1.0
    ensures chosen < |weights| && weights[chosen] > 0.0
    ensures forall i: nat :: FirstToReach(weights, pick, i) <==> i == chosen
    ensures InInterval(weights, pick, chosen)
    ensures Count(pairs, ends[f][chosen]) <= 64 ==>
              forall g, j :: 0 <= g < |ends| && 0 <= j < |ends[g]| && ends[g][j] == ends[f][chosen] ==>
                |tags[g]| == |ends[g]| && (ByteOf(tags[g][j]) == ByteOf(tags[f][chosen]) <==> g == f && j == chosen)
  {
    hide Tagged;
    hide Cumulative;
    hide ByteOf;
    WholeIsSum(weights);
    chosen := SomethingReached(weights, pick, |weights|);
    SelectsByInterval(weights, pick, chosen);
    forall i: nat ensures FirstToReach(weights, pick, i) <==> i == chosen {
      SelectsByInterval(weights, pick, i);
    }
    if Count(pairs, ends[f][chosen]) <= 64 {
      forall g, j | 0 <= g < |ends| && 0 <= j < |ends[g]| && ends[g][j] == ends[f][chosen]
        ensures |tags[g]| == |ends[g]| && (ByteOf(tags[g][j]) == ByteOf(tags[f][chosen]) <==> g == f && j == chosen)
      {
        SizesAgree(ends, first, pairs, tags, g);
        if g != f || j != chosen {
          TrialBytesDiffer(ends, first, pairs, tags, f, chosen, g, j);
        }
      }
    }
  }

  lemma WholeIsSum(weights: seq<real>)
    ensures Cumulative(weights, |weights|) == Sum(weights)
  {
    assert weights[..|weights|] == weights;
  }

  /** ... and different bytes, if there are at most 64 of them. */
  lemma TrialBytesDiffer(
      ends: seq<seq<Ends>>, first: nat, pairs: seq<Ends>, tags: seq<seq<nat>>, f: nat, i: nat, g: nat, j: nat)
    requires Tagged(ends, first, pairs, tags)
    requires f < |ends| && i < |ends[f]| && g < |ends| && j < |ends[g]| && (f != g || i != j)
    requires ends[f][i] == ends[g][j] && Count(pairs, ends[f][i]) <= 64
    ensures |tags[f]| == |ends[f]| && |tags[g]| == |ends[g]| && ByteOf(tags[f][i]) != ByteOf(tags[g][j])
  {
    hide ByteOf;
    assert TaggedAt(ends, first, pairs, tags, f, i) && TaggedAt(ends, first, pairs, tags, g, j);
    PositionsDiffer(ends, f, i, g, j);
    BytesDifferIff(first, pairs, ends[f][i]);
  }

  lemma SizesAgree(ends: seq<seq<Ends>>, first: nat, pairs: seq<Ends>, tags: seq<seq<nat>>, g: nat)
    requires Tagged(ends, first, pairs, tags) && g < |ends|
    ensures |tags[g]| == |ends[g]|
  {
  }
}
