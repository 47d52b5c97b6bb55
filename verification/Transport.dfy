/** Where shares are.  A flow sends one message per step, split into k shares that travel along
    k different paths.  This module gives the closed form of that transport: which shares exist,
    at which node each one is after t steps, and which ones have been delivered.  The classes in
    Simulator are proved against it. */
module Transport {
  import opened Basics

  /** One share of one message.  The pair (seqNum, shareNum) is unique within a flow, so comparing
      shares as values agrees with comparing them by identity. */
  datatype Share = Share(flowId: nat, seqNum: nat, shareNum: nat, pathIdx: nat, source: NodeId, sink: NodeId)

  /** The constant part of a path-hopping flow. */
  datatype FlowSpec = FlowSpec(id: nat, source: NodeId, sink: NodeId, paths: seq<Path>, k: nat) {

    /** What flow creation establishes: simple source-to-sink paths, of which k are sampled. */
    ghost predicate Valid() {
      && 1 <= k <= |paths|
      && source != sink
      && forall i :: 0 <= i < |paths| ==> IsRoute(paths[i])
    }

    ghost predicate IsRoute(p: Path) {
      |p| >= 2 && Distinct(p) && p[0] == source && p[|p| - 1] == sink
    }

    ghost predicate Disjoint() {
      ShareNoInterior(paths)
    }
  }

  /** What is known of one flow at some moment: the paths sampled for each message (history[s] for
      message s) and how many messages have been sent. */
  datatype View = View(spec: FlowSpec, history: seq<seq<nat>>, sent: nat) {

    ghost predicate Valid() {
      && spec.Valid()
      && sent <= |history|
      && forall s :: 0 <= s < |history| ==> IsChoice(history[s], |spec.paths|, spec.k)
    }

    function ShareOf(s: nat, j: nat): (sh: Share)
      requires s < |history| && j < |history[s]|
    {
      Share(spec.id, s, j, history[s][j], spec.source, spec.sink)
    }

    ghost predicate Created(sh: Share) {
      && sh.seqNum < sent && sh.seqNum < |history|
      && sh.shareNum < |history[sh.seqNum]|
      && sh == ShareOf(sh.seqNum, sh.shareNum)
    }

    ghost function RouteOf(sh: Share): Path
      requires Valid() && Created(sh)
    {
      spec.paths[sh.pathIdx]
    }

    /** After t moves the share is somewhere in the network. */
    ghost predicate InNetwork(t: nat, sh: Share)
      requires Valid()
    {
      Created(sh) && sh.seqNum <= t < sh.seqNum + |RouteOf(sh)|
    }

    ghost function NodeAt(t: nat, sh: Share): NodeId
      requires Valid() && InNetwork(t, sh)
    {
      RouteOf(sh)[t - sh.seqNum]
    }

    /** After t moves the share is resident at node x. */
    ghost predicate Present(t: nat, sh: Share, x: NodeId)
      requires Valid()
    {
      InNetwork(t, sh) && NodeAt(t, sh) == x
    }

    /** After t moves the share has left the network at its sink. */
    ghost predicate Arrived(t: nat, sh: Share)
      requires Valid()
    {
      Created(sh) && sh.seqNum + |RouteOf(sh)| <= t
    }

    /** All shares created so far. */
    ghost function Shares(): set<Share>
      requires Valid()
    {
      set s, j | 0 <= s < sent && 0 <= j < spec.k :: ShareOf(s, j)
    }

    /** The shares of one message. */
    ghost function MessageShares(s: nat): set<Share>
      requires Valid() && s < sent
    {
      FirstShares(s, spec.k)
    }

    ghost function FirstShares(s: nat, n: nat): set<Share>
      requires Valid() && s < sent && n <= spec.k
    {
      set j | 0 <= j < n :: ShareOf(s, j)
    }

    ghost function ResidentAt(t: nat, x: NodeId): set<Share>
      requires Valid()
    {
      set sh | sh in Shares() && Present(t, sh, x)
    }

    ghost function InFlight(t: nat): set<Share>
      requires Valid()
    {
      set sh | sh in Shares() && !Arrived(t, sh)
    }

    ghost function Delivered(t: nat): set<Share>
      requires Valid()
    {
      set sh | sh in Shares() && Arrived(t, sh)
    }

    /** The messages all of whose shares have been delivered. */
    ghost function Completed(t: nat): set<nat>
      requires Valid()
    {
      set s | s in Below(sent) && MessageShares(s) <= Delivered(t)
    }
  }

  lemma SharesAreCreated(v: View, sh: Share)
    requires v.Valid()
    ensures sh in v.Shares() <==> v.Created(sh)
  {
    if v.Created(sh) {
      assert sh == v.ShareOf(sh.seqNum, sh.shareNum);
    }
  }

  // ----- conservation -----

  lemma {:induction false} CardFirst(v: View, s: nat, n: nat)
    requires v.Valid() && s < v.sent && n <= v.spec.k
    ensures |v.FirstShares(s, n)| == n
  {
    if n == 0 {
      assert v.FirstShares(s, n) == {};
    } else {
      CardFirst(v, s, n - 1);
      assert v.FirstShares(s, n) == v.FirstShares(s, n - 1) + {v.ShareOf(s, n - 1)};
    }
  }

  /** The shares of the last message are the ones that the last message added. */
  lemma SharesOfLast(v: View)
    requires v.Valid() && v.sent > 0
    ensures var u := v.(sent := v.sent - 1);
            v.Shares() == u.Shares() + v.MessageShares(u.sent) && u.Shares() !! v.MessageShares(u.sent)
  {
    var u := v.(sent := v.sent - 1);
    forall sh ensures sh in v.Shares() <==> sh in u.Shares() || sh in v.MessageShares(u.sent) {
      SharesAreCreated(v, sh);
      SharesAreCreated(u, sh);
    }
    forall sh | sh in u.Shares() ensures sh !in v.MessageShares(u.sent) {
      SharesAreCreated(u, sh);
    }
  }

  lemma NoShares(v: View)
    requires v.Valid() && v.sent == 0
    ensures v.Shares() == {}
  {
  }

  lemma CardMessage(v: View, s: nat)
    requires v.Valid() && s < v.sent
    ensures |v.MessageShares(s)| == v.spec.k
  {
    CardFirst(v, s, v.spec.k);
  }

  lemma {:induction false} CardShares(v: View)
    requires v.Valid()
    ensures |v.Shares()| == v.spec.k * v.sent
    decreases v.sent
  {
    hide View.Shares;
    hide View.MessageShares;
    hide FlowSpec.Valid;
    if v.sent == 0 {
      NoShares(v);
    } else {
      var u := v.(sent := v.sent - 1);
      CardShares(u);
      SharesOfLast(v);
      CardMessage(v, u.sent);
      CardUnion(u.Shares(), v.MessageShares(u.sent));
      Distribute(v.spec.k, v.sent, 1);
    }
  }

  /** Shares resident at the nodes of a set. */
  ghost function Occupancy(v: View, t: nat, nodes: set<NodeId>): nat
    requires v.Valid()
  {
    if nodes == {} then 0
    else
      var x :| x in nodes;
      |v.ResidentAt(t, x)| + Occupancy(v, t, nodes - {x})
  }

  ghost function ResidentIn(v: View, t: nat, nodes: set<NodeId>): set<Share>
    requires v.Valid()
  {
    set sh | sh in v.Shares() && v.InNetwork(t, sh) && v.NodeAt(t, sh) in nodes
  }

  lemma NoneResident(v: View, t: nat)
    requires v.Valid()
    ensures ResidentIn(v, t, {}) == {}
  {
  }

  lemma {:induction false} OccupancyCounts(v: View, t: nat, nodes: set<NodeId>)
    requires v.Valid()
    ensures Occupancy(v, t, nodes) == |ResidentIn(v, t, nodes)|
  {
    hide View.ResidentAt;
    hide View.Shares;
    hide FlowSpec.Valid;
    if nodes == {} {
      NoneResident(v, t);
    } else {
      var x :| x in nodes && Occupancy(v, t, nodes) == |v.ResidentAt(t, x)| + Occupancy(v, t, nodes - {x});
      OccupancyCounts(v, t, nodes - {x});
      ResidentSplit(v, t, nodes, x);
      CardUnion(v.ResidentAt(t, x), ResidentIn(v, t, nodes - {x}));
    }
  }

  lemma ResidentSplit(v: View, t: nat, nodes: set<NodeId>, x: NodeId)
    requires v.Valid() && x in nodes
    ensures ResidentIn(v, t, nodes) == v.ResidentAt(t, x) + ResidentIn(v, t, nodes - {x})
    ensures v.ResidentAt(t, x) !! ResidentIn(v, t, nodes - {x})
  {
    hide FlowSpec.Valid;
    hide View.Shares;
  }

  /** Conservation.  Every share ever created is either resident at a node (and at one only) or
      delivered: k * sent == resident + delivered. */
  lemma Conservation(v: View, t: nat, nodes: set<NodeId>)
    requires v.Valid() && v.sent <= t + 1
    requires forall i, a :: 0 <= i < |v.spec.paths| && 0 <= a < |v.spec.paths[i]| ==> v.spec.paths[i][a] in nodes
    ensures Occupancy(v, t, nodes) + |v.Delivered(t)| == v.spec.k * v.sent
    ensures Occupancy(v, t, nodes) == |v.InFlight(t)|
  {
    OccupancyCounts(v, t, nodes);
    forall sh ensures sh in v.InFlight(t) <==> sh in ResidentIn(v, t, nodes) {
      SharesAreCreated(v, sh);
    }
    assert v.InFlight(t) == ResidentIn(v, t, nodes);
    assert v.Shares() == v.InFlight(t) + v.Delivered(t);
    CardShares(v);
  }

  // ----- latency and occupancy -----

  /** Message s is complete exactly when each of its k routes is at most t - s nodes long. */
  lemma CompletedIff(v: View, t: nat, s: nat)
    requires v.Valid() && s < v.sent
    ensures s in v.Completed(t) <==>
            forall j :: 0 <= j < v.spec.k ==> s + |v.spec.paths[v.history[s][j]]| <= t
  {
    forall j | 0 <= j < v.spec.k
      ensures v.ShareOf(s, j) in v.MessageShares(s)
      ensures v.ShareOf(s, j) in v.Delivered(t) <==> s + |v.spec.paths[v.history[s][j]]| <= t
    {
      SharesAreCreated(v, v.ShareOf(s, j));
    }
  }

  /** Latency.  When no path has more than len nodes, all but the last len - 1 messages are
      complete after t steps, and at most k * (len - 1) shares are in flight. */
  lemma LatencyBound(v: View, t: nat, len: nat)
    requires v.Valid() && v.sent == t && len >= 1
    requires forall i :: 0 <= i < |v.spec.paths| ==> |v.spec.paths[i]| <= len
    ensures |v.Completed(t)| >= t - (len - 1)
    ensures |v.InFlight(t)| <= v.spec.k * (len - 1)
  {
    hide View.Shares;
    hide View.InFlight;
    hide View.Completed;
    hide FlowSpec.Valid;
    var done := if t >= len - 1 then t - (len - 1) else 0;
    forall s | s in Below(done) ensures s in v.Completed(t) {
      CompletedIff(v, t, s);
    }
    CardSubset(Below(done), v.Completed(t));
    InFlightAreRecent(v, t, len, done);
    CardDifference(v, done);
    ScaleLeq(v.spec.k, t - done, len - 1);
  }

  lemma InFlightAreRecent(v: View, t: nat, len: nat, done: nat)
    requires v.Valid() && v.sent == t && done <= t
    requires done == 0 || done + len - 1 == t
    requires forall i :: 0 <= i < |v.spec.paths| ==> |v.spec.paths[i]| <= len
    ensures |v.InFlight(t)| <= |v.Shares() - v.(sent := done).Shares()|
  {
    var u := v.(sent := done);
    forall sh | sh in v.InFlight(t) ensures sh in v.Shares() - u.Shares() {
      SharesAreCreated(v, sh);
      SharesAreCreated(u, sh);
    }
    CardSubset(v.InFlight(t), v.Shares() - u.Shares());
  }

  lemma CardDifference(v: View, done: nat)
    requires v.Valid() && done <= v.sent
    ensures |v.Shares() - v.(sent := done).Shares()| == v.spec.k * (v.sent - done)
  {
    var u := v.(sent := done);
    forall sh | sh in u.Shares() ensures sh in v.Shares() {
      SharesAreCreated(v, sh);
      SharesAreCreated(u, sh);
    }
    assert v.Shares() == u.Shares() + (v.Shares() - u.Shares());
    CardShares(v);
    CardShares(u);
    Distribute(v.spec.k, v.sent, done);
  }

  lemma Distribute(k: int, a: int, b: int)
    ensures k * (a - b) == k * a - k * b
  {
  }

  lemma ScaleLeq(k: nat, a: int, b: int)
    requires a <= b
    ensures k * a <= k * b
  {
  }

  /** Latency is exact when all paths have the same number of nodes. */
  lemma LatencyExact(v: View, t: nat, len: nat)
    requires v.Valid() && v.sent == t && len >= 1
    requires forall i :: 0 <= i < |v.spec.paths| ==> |v.spec.paths[i]| == len
    ensures v.Completed(t) == Below(if t >= len - 1 then t - (len - 1) else 0)
    ensures |v.Completed(t)| == if t >= len - 1 then t - (len - 1) else 0
  {
    var done := if t >= len - 1 then t - (len - 1) else 0;
    forall s: nat ensures s in v.Completed(t) <==> s in Below(done) {
      if s < t {
        CompletedIff(v, t, s);
        assert v.history[s][0] < |v.spec.paths|;
      }
    }
  }

  /** With one flow on internally disjoint paths an interior node never holds two shares. */
  lemma InteriorHoldsAtMostOne(v: View, t: nat, a: Share, b: Share, x: NodeId)
    requires v.Valid() && v.spec.Disjoint()
    requires x != v.spec.source && x != v.spec.sink
    requires v.Present(t, a, x) && v.Present(t, b, x)
    ensures a == b
  {
    var p, q := v.RouteOf(a), v.RouteOf(b);
    var i, j := t - a.seqNum, t - b.seqNum;
    assert p == v.spec.paths[a.pathIdx] && q == v.spec.paths[b.pathIdx];
    assert v.spec.IsRoute(p) && v.spec.IsRoute(q);
    assert 0 < i < |p| - 1;
    assert Crosses(v.spec.paths, a.pathIdx, i, b.pathIdx, j);
    assert i == j;
    assert Distinct(v.history[a.seqNum]);
  }

  // ----- several flows -----

  /** One view per flow identifier. */
  type World = map<nat, View>

  ghost predicate ValidWorld(w: World) {
    forall id :: id in w ==> w[id].Valid() && w[id].spec.id == id
  }

  ghost predicate PresentIn(w: World, t: nat, sh: Share, x: NodeId)
    requires ValidWorld(w)
  {
    sh.flowId in w && w[sh.flowId].Present(t, sh, x)
  }

  ghost predicate ArrivedIn(w: World, t: nat, sh: Share)
    requires ValidWorld(w)
  {
    sh.flowId in w && w[sh.flowId].Arrived(t, sh)
  }
}
