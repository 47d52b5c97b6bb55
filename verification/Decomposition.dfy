/** What the routes of an edge-flow solution add up to.  A solution that meets the conservation constraints
    decomposes into weights on the routes found by the search, so the returned splitting ratios sum to at least one,
    less what the search takes for noise.  Without noise they sum to exactly one if and only if there is one route
    or every route has a link that is on no other route and on no cycle. */
module Decomposition {
  import opened Basics
  import opened Products
  import opened Traversal

  // ----- net flow out of a set of nodes -----

  /** What an entry with weight w contributes to the net flow out of the nodes R. */
  ghost function Term(e: Entry, f: nat, w: real, R: set<NodeId>): real {
    if e.flow != f then 0.0
    else if e.u in R && e.v !in R then w
    else if e.u !in R && e.v in R then -w
    else 0.0
  }

  /** Net flow out of R when entry i carries x[i]. */
  ghost function Net(F: seq<Entry>, f: nat, x: seq<real>, R: set<NodeId>): real
    requires |x| == |F|
  {
    if F == [] then 0.0 else Term(F[0], f, x[0], R) + Net(F[1..], f, x[1..], R)
  }

  /** What a node owes when `value` goes from s to t. */
  ghost function Owes(z: NodeId, s: NodeId, t: NodeId, value: real): real {
    (if z == s then value else 0.0) - (if z == t then value else 0.0)
  }

  /** Every node conserves the flow, but for `value` leaving s and arriving at t. */
  ghost predicate Conserves(F: seq<Entry>, f: nat, x: seq<real>, s: NodeId, t: NodeId, value: real)
    requires |x| == |F|
  {
    forall z :: Net(F, f, x, {z}) == Owes(z, s, t, value)
  }

  lemma {:induction false} NetAdds(F: seq<Entry>, f: nat, x: seq<real>, A: set<NodeId>, B: set<NodeId>)
    requires |x| == |F| && A !! B
    ensures Net(F, f, x, A + B) == Net(F, f, x, A) + Net(F, f, x, B)
  {
    if F != [] {
      NetAdds(F[1..], f, x[1..], A, B);
    }
  }

  lemma {:induction false} NetOfNone(F: seq<Entry>, f: nat, x: seq<real>)
    requires |x| == |F|
    ensures Net(F, f, x, {}) == 0.0
  {
    if F != [] {
      NetOfNone(F[1..], f, x[1..]);
    }
  }

  /** Net flow out of a set: the value, if the set separates s from t. */
  lemma {:induction false} NetOfSet(
      F: seq<Entry>, f: nat, x: seq<real>, s: NodeId, t: NodeId, value: real, R: set<NodeId>)
    requires |x| == |F| && Conserves(F, f, x, s, t, value)
    ensures Net(F, f, x, R) == (if s in R then value else 0.0) - (if t in R then value else 0.0)
  {
    if R == {} {
      NetOfNone(F, f, x);
    } else {
      var z :| z in R;
      NetOfSet(F, f, x, s, t, value, R - {z});
      NetAdds(F, f, x, R - {z}, {z});
      assert (R - {z}) + {z} == R;
      assert Net(F, f, x, {z}) == Owes(z, s, t, value);
    }
  }

  /** No entry with a positive weight leaves R. */
  ghost predicate Sealed(F: seq<Entry>, f: nat, x: seq<real>, R: set<NodeId>)
    requires |x| == |F|
  {
    forall i :: 0 <= i < |F| && F[i].flow == f && F[i].u in R && F[i].v !in R ==> x[i] <= 0.0
  }

  /** The net flow out of a sealed set is not positive, and at most minus the weight of any entry into it. */
  lemma {:induction false} SealedNet(F: seq<Entry>, f: nat, x: seq<real>, R: set<NodeId>)
    requires |x| == |F| && NonNegative(x) && Sealed(F, f, x, R)
    ensures Net(F, f, x, R) <= 0.0
    ensures forall k :: 0 <= k < |F| && F[k].flow == f && F[k].u !in R && F[k].v in R ==> Net(F, f, x, R) <= -x[k]
  {
    if F != [] {
      var F', x' := F[1..], x[1..];
      forall i | 0 <= i < |F'| && F'[i].flow == f && F'[i].u in R && F'[i].v !in R ensures x'[i] <= 0.0 {
        assert F'[i] == F[i + 1] && x'[i] == x[i + 1];
      }
      forall i | 0 <= i < |x'| ensures x'[i] >= 0.0 {
        assert x'[i] == x[i + 1];
      }
      SealedNet(F', f, x', R);
      assert F[0].flow == f && F[0].u in R && F[0].v !in R ==> x[0] <= 0.0;
      forall k | 0 <= k < |F| && F[k].flow == f && F[k].u !in R && F[k].v in R ensures Net(F, f, x, R) <= -x[k] {
        if k > 0 {
          assert F'[k - 1] == F[k] && x'[k - 1] == x[k];
        }
      }
    }
  }

  // ----- reachability along positive weights -----

  ghost predicate Positive(F: seq<Entry>, f: nat, x: seq<real>, u: NodeId, v: NodeId)
    requires |x| == |F|
  {
    exists i :: 0 <= i < |F| && F[i].flow == f && F[i].u == u && F[i].v == v && x[i] > 0.0
  }

  /** A simple path out of s along positive weights. */
  ghost predicate Flowing(F: seq<Entry>, f: nat, x: seq<real>, s: NodeId, p: Path)
    requires |x| == |F|
  {
    |p| >= 1 && p[0] == s && Distinct(p) && forall h :: 0 <= h < |p| - 1 ==> Link(F, f, x, p, h)
  }

  ghost predicate Link(F: seq<Entry>, f: nat, x: seq<real>, p: Path, h: nat)
    requires |x| == |F| && h + 1 < |p|
  {
    Positive(F, f, x, p[h], p[h + 1])
  }

  ghost predicate Reaches(F: seq<Entry>, f: nat, x: seq<real>, s: NodeId, z: NodeId)
    requires |x| == |F|
  {
    exists p :: Flowing(F, f, x, s, p) && p[|p| - 1] == z
  }

  ghost function Reach(F: seq<Entry>, f: nat, x: seq<real>, s: NodeId): set<NodeId>
    requires |x| == |F|
  {
    set z | z in Nodes(F, s) && Reaches(F, f, x, s, z)
  }

  lemma PrefixFlows(F: seq<Entry>, f: nat, x: seq<real>, s: NodeId, p: Path, n: nat)
    requires |x| == |F| && Flowing(F, f, x, s, p) && 1 <= n <= |p|
    ensures Flowing(F, f, x, s, p[..n])
  {
    hide Positive;
    forall h | 0 <= h < n - 1 ensures Link(F, f, x, p[..n], h) {
      assert Link(F, f, x, p, h);
    }
  }

  lemma ExtensionFlows(F: seq<Entry>, f: nat, x: seq<real>, s: NodeId, p: Path, v: NodeId)
    requires |x| == |F| && Flowing(F, f, x, s, p) && v !in p && Positive(F, f, x, p[|p| - 1], v)
    ensures Flowing(F, f, x, s, p + [v])
  {
    hide Positive;
    var q := p + [v];
    forall h | 0 <= h < |q| - 1 ensures Link(F, f, x, q, h) {
      if h < |p| - 1 {
        assert Link(F, f, x, p, h);
      }
    }
  }

  /** Reachability is closed under positive entries. */
  lemma ReachIsSealed(F: seq<Entry>, f: nat, x: seq<real>, s: NodeId)
    requires |x| == |F|
    ensures s in Reach(F, f, x, s) && Sealed(F, f, x, Reach(F, f, x, s))
  {
    assert Flowing(F, f, x, s, [s]);
    assert Reaches(F, f, x, s, s);
    var R := Reach(F, f, x, s);
    forall i | 0 <= i < |F| && F[i].flow == f && F[i].u in R && x[i] > 0.0 ensures F[i].v in R {
      var v := F[i].v;
      var p :| Flowing(F, f, x, s, p) && p[|p| - 1] == F[i].u;
      assert Positive(F, f, x, F[i].u, v);
      if v in p {
        var n :| 0 <= n < |p| && p[n] == v;
        PrefixFlows(F, f, x, s, p, n + 1);
        assert p[..n + 1][n] == v;
      } else {
        ExtensionFlows(F, f, x, s, p, v);
        assert (p + [v])[|p|] == v;
      }
      assert Reaches(F, f, x, s, v);
    }
  }

  /** x on the entries of flow f that the search sees, and on those it takes for noise. */
  ghost function Clean(F: seq<Entry>, f: nat, x: seq<real>): (c: seq<real>)
    requires |x| == |F|
    ensures |c| == |x|
  {
    seq(|x|, i requires 0 <= i < |x| => if F[i].flow == f && F[i].ratio <= EPSILON then 0.0 else x[i])
  }

  ghost function Noise(F: seq<Entry>, f: nat, x: seq<real>): (c: seq<real>)
    requires |x| == |F|
    ensures |c| == |x|
  {
    seq(|x|, i requires 0 <= i < |x| => if F[i].flow == f && F[i].ratio <= EPSILON then x[i] else 0.0)
  }

  lemma {:induction false} NetSplits(F: seq<Entry>, f: nat, x: seq<real>, a: seq<real>, b: seq<real>, R: set<NodeId>)
    requires |x| == |a| == |b| == |F| && forall i :: 0 <= i < |x| ==> x[i] == a[i] + b[i]
    ensures Net(F, f, x, R) == Net(F, f, a, R) + Net(F, f, b, R)
  {
    if F != [] {
      assert forall i :: 0 <= i < |x[1..]| ==> x[1..][i] == x[i + 1] && a[1..][i] == a[i + 1] && b[1..][i] == b[i + 1];
      NetSplits(F[1..], f, x[1..], a[1..], b[1..], R);
    }
  }

  /** No more can leave a set than there is. */
  lemma {:induction false} NetAtMost(F: seq<Entry>, f: nat, x: seq<real>, R: set<NodeId>)
    requires |x| == |F| && NonNegative(x)
    ensures Net(F, f, x, R) <= Sum(x)
  {
    if F != [] {
      assert forall i :: 0 <= i < |x[1..]| ==> x[1..][i] == x[i + 1];
      NetAtMost(F[1..], f, x[1..], R);
    }
  }

  /** As long as more flows from s than the noise can carry, there is a simple path to t above the noise. */
  lemma PathExists(F: seq<Entry>, f: nat, x: seq<real>, s: NodeId, t: NodeId, value: real) returns (p: Path)
    requires |x| == |F| && NonNegative(x) && s != t && Conserves(F, f, x, s, t, value)
    requires value > Sum(Noise(F, f, x)) && value > 0.0
    ensures Flowing(F, f, Clean(F, f, x), s, p) && p[|p| - 1] == t && |p| >= 2
  {
    hide Conserves;
    hide Sealed;
    var c, e := Clean(F, f, x), Noise(F, f, x);
    var R := Reach(F, f, c, s);
    ReachIsSealed(F, f, c, s);
    SealedNet(F, f, c, R);
    NetAtMost(F, f, e, R);
    NetSplits(F, f, x, c, e, R);
    NetOfSet(F, f, x, s, t, value, R);
    assert t in R;
    p :| Flowing(F, f, c, s, p) && p[|p| - 1] == t;
  }

  /** A flow that nothing enters or leaves has no weight on an entry outside every cycle. */
  lemma CirculationNeedsCycle(F: seq<Entry>, f: nat, x: seq<real>, s: NodeId, t: NodeId, k: nat)
    requires |x| == |F| && NonNegative(x) && Conserves(F, f, x, s, t, 0.0)
    requires k < |F| && F[k].flow == f && x[k] > 0.0
    ensures Reaches(F, f, x, F[k].v, F[k].u)
  {
    hide Conserves;
    hide Sealed;
    var R := Reach(F, f, x, F[k].v);
    ReachIsSealed(F, f, x, F[k].v);
    SealedNet(F, f, x, R);
    NetOfSet(F, f, x, s, t, 0.0, R);
    assert F[k].u in R;
  }

  // ----- taking flow off a path -----

  /** The entry is a link of the path. */
  ghost predicate OnPath(e: Entry, f: nat, p: Path) {
    e.flow == f && exists h :: 0 <= h < |p| - 1 && Between(e, p, h)
  }

  ghost predicate Between(e: Entry, p: Path, h: nat)
    requires h + 1 < |p|
  {
    e.u == p[h] && e.v == p[h + 1]
  }

  /** x with b taken off every link of the path. */
  ghost function Reduced(F: seq<Entry>, f: nat, x: seq<real>, p: Path, b: real): (r: seq<real>)
    requires |x| == |F|
    ensures |r| == |x|
  {
    seq(|x|, i requires 0 <= i < |x| => if OnPath(F[i], f, p) then x[i] - b else x[i])
  }

  lemma {:induction false} NetUpdate(F: seq<Entry>, f: nat, x: seq<real>, i: nat, y: real, R: set<NodeId>)
    requires |x| == |F| && i < |F|
    ensures Net(F, f, x[i := y], R) == Net(F, f, x, R) + Term(F[i], f, y - x[i], R)
  {
    if i == 0 {
      assert x[0 := y][1..] == x[1..];
    } else {
      NetUpdate(F[1..], f, x[1..], i - 1, y, R);
      assert x[i := y][1..] == x[1..][i - 1 := y];
    }
  }

  /** The entry for a positive link. */
  lemma IndexOf(F: seq<Entry>, f: nat, x: seq<real>, u: NodeId, v: NodeId) returns (i: nat)
    requires Keyed(F) && |x| == |F| && Positive(F, f, x, u, v)
    ensures i < |F| && F[i].flow == f && F[i].u == u && F[i].v == v && x[i] > 0.0
    ensures forall j :: 0 <= j < |F| && F[j].flow == f && F[j].u == u && F[j].v == v ==> j == i
  {
    i :| 0 <= i < |F| && F[i].flow == f && F[i].u == u && F[i].v == v && x[i] > 0.0;
    assert forall j :: 0 <= j < |F| && j != i ==> !SameKey(F[j], F[i]);
  }

  /** A path's links are its first link and those of its tail. */
  lemma OnTail(e: Entry, f: nat, p: Path)
    requires |p| >= 2 && Distinct(p)
    ensures OnPath(e, f, p) <==> e.flow == f && (Between(e, p, 0) || OnPath(e, f, p[1..]))
    ensures Between(e, p, 0) ==> !OnPath(e, f, p[1..])
  {
    var q := p[1..];
    if OnPath(e, f, p) && !Between(e, p, 0) {
      var h :| 0 <= h < |p| - 1 && Between(e, p, h);
      assert Between(e, q, h - 1);
    }
    if OnPath(e, f, q) {
      var h :| 0 <= h < |q| - 1 && Between(e, q, h);
      assert Between(e, p, h + 1);
    }
  }

  /** Taking b off the first link and then off the tail takes it off the path. */
  lemma ReduceFirst(F: seq<Entry>, f: nat, x: seq<real>, p: Path, b: real, i: nat)
    requires |x| == |F| && |p| >= 2 && Distinct(p) && i < |F|
    requires F[i].flow == f && Between(F[i], p, 0)
    requires forall j :: 0 <= j < |F| && F[j].flow == f && Between(F[j], p, 0) ==> j == i
    ensures Reduced(F, f, x, p, b) == Reduced(F, f, x[i := x[i] - b], p[1..], b)
  {
    var x' := x[i := x[i] - b];
    forall j | 0 <= j < |F| ensures Reduced(F, f, x, p, b)[j] == Reduced(F, f, x', p[1..], b)[j] {
      OnTail(F[j], f, p);
    }
  }

  /** Every link of p has an entry, and only one. */
  ghost predicate HasLinks(F: seq<Entry>, f: nat, p: Path) {
    forall h :: 0 <= h < |p| - 1 ==> HasLink(F, f, p, h)
  }

  ghost predicate HasLink(F: seq<Entry>, f: nat, p: Path, h: nat)
    requires h + 1 < |p|
  {
    exists i :: 0 <= i < |F| && F[i].flow == f && Between(F[i], p, h)
             && forall j :: 0 <= j < |F| && F[j].flow == f && Between(F[j], p, h) ==> j == i
  }

  /** Taking b off a path lowers what its first node sends and what its last node receives by b. */
  lemma {:induction false} NetReduced(F: seq<Entry>, f: nat, x: seq<real>, p: Path, b: real, z: NodeId)
    requires |x| == |F| && |p| >= 1 && Distinct(p) && HasLinks(F, f, p)
    ensures Net(F, f, Reduced(F, f, x, p, b), {z}) == Net(F, f, x, {z}) - Owes(z, p[0], p[|p| - 1], b)
    decreases |p|
  {
    if |p| == 1 {
      assert forall e :: !OnPath(e, f, p);
      assert Reduced(F, f, x, p, b) == x;
    } else {
      assert HasLink(F, f, p, 0);
      var i :| 0 <= i < |F| && F[i].flow == f && Between(F[i], p, 0)
            && forall j :: 0 <= j < |F| && F[j].flow == f && Between(F[j], p, 0) ==> j == i;
      TailHasLinks(F, f, p);
      NetReduced(F, f, x[i := x[i] - b], p[1..], b, z);
      ReduceFirst(F, f, x, p, b, i);
      NetUpdate(F, f, x, i, x[i] - b, {z});
    }
  }

  lemma TailHasLinks(F: seq<Entry>, f: nat, p: Path)
    requires |p| >= 2 && HasLinks(F, f, p)
    ensures HasLinks(F, f, p[1..])
  {
    forall h | 0 <= h < |p| - 2 ensures HasLink(F, f, p[1..], h) {
      assert HasLink(F, f, p, h + 1);
      var i :| 0 <= i < |F| && F[i].flow == f && Between(F[i], p, h + 1)
            && forall j :: 0 <= j < |F| && F[j].flow == f && Between(F[j], p, h + 1) ==> j == i;
      assert Between(F[i], p[1..], h);
      forall j | 0 <= j < |F| && F[j].flow == f && Between(F[j], p[1..], h) ensures j == i {
        assert Between(F[j], p, h + 1);
      }
    }
  }

  lemma FlowingHasLinks(F: seq<Entry>, f: nat, x: seq<real>, s: NodeId, p: Path)
    requires Keyed(F) && |x| == |F| && Flowing(F, f, x, s, p)
    ensures HasLinks(F, f, p)
  {
    hide Keyed;
    hide Positive;
    forall h | 0 <= h < |p| - 1 ensures HasLink(F, f, p, h) {
      assert Link(F, f, x, p, h);
      var i := IndexOf(F, f, x, p[h], p[h + 1]);
      assert Between(F[i], p, h);
    }
  }

  /** The most that can be taken off the path: the value, or all of some link of it. */
  lemma {:induction false} Takeable(F: seq<Entry>, f: nat, x: seq<real>, s: NodeId, p: Path, value: real)
      returns (b: real, k: nat)
    requires Keyed(F) && |x| == |F| && Flowing(F, f, x, s, p) && value > 0.0
    ensures 0.0 < b <= value
    ensures forall i :: 0 <= i < |F| && OnPath(F[i], f, p) ==> b <= x[i]
    ensures b == value || (k < |F| && OnPath(F[k], f, p) && x[k] == b)
    decreases |p|
  {
    if |p| == 1 {
      b, k := value, 0;
    } else {
      assert Link(F, f, x, p, 0);
      var i := IndexOf(F, f, x, p[0], p[1]);
      TailFlows(F, f, x, s, p);
      b, k := Takeable(F, f, x, p[1], p[1..], value);
      forall j | 0 <= j < |F| ensures OnPath(F[j], f, p) <==> F[j].flow == f && (j == i || OnPath(F[j], f, p[1..])) {
        OnTail(F[j], f, p);
      }
      if x[i] < b {
        b, k := x[i], i;
      }
    }
  }

  lemma TailFlows(F: seq<Entry>, f: nat, x: seq<real>, s: NodeId, p: Path)
    requires |x| == |F| && Flowing(F, f, x, s, p) && |p| >= 2
    ensures Flowing(F, f, x, p[1], p[1..])
  {
    hide Positive;
    forall h | 0 <= h < |p| - 2 ensures Link(F, f, x, p[1..], h) {
      assert Link(F, f, x, p, h + 1);
    }
  }

  // ----- weights on a list of paths -----

  /** What the weighted paths put on an entry. */
  ghost function Load(e: Entry, f: nat, paths: seq<Path>, y: seq<real>): real
    requires |y| == |paths|
  {
    if paths == [] then 0.0
    else (if OnPath(e, f, paths[0]) then y[0] else 0.0) + Load(e, f, paths[1..], y[1..])
  }

  lemma {:induction false} SumUpdate(y: seq<real>, q: nat, b: real)
    requires q < |y|
    ensures Sum(y[q := y[q] + b]) == Sum(y) + b
  {
    if q == 0 {
      assert y[0 := y[0] + b][1..] == y[1..];
    } else {
      SumUpdate(y[1..], q - 1, b);
      assert y[q := y[q] + b][1..] == y[1..][q - 1 := y[1..][q - 1] + b];
    }
  }

  lemma {:induction false} LoadUpdate(e: Entry, f: nat, paths: seq<Path>, y: seq<real>, q: nat, b: real)
    requires |y| == |paths| && q < |y|
    ensures Load(e, f, paths, y[q := y[q] + b]) == Load(e, f, paths, y) + if OnPath(e, f, paths[q]) then b else 0.0
  {
    hide OnPath;
    if q == 0 {
      assert y[0 := y[0] + b][1..] == y[1..];
    } else {
      LoadUpdate(e, f, paths[1..], y[1..], q - 1, b);
      assert y[q := y[q] + b][1..] == y[1..][q - 1 := y[1..][q - 1] + b];
    }
  }

  lemma {:induction false} Zeros(n: nat) returns (y: seq<real>)
    ensures |y| == n && NonNegative(y) && Sum(y) == 0.0
    ensures forall e, f, paths: seq<Path> :: |paths| == n ==> Load(e, f, paths, y) == 0.0
  {
    if n == 0 {
      y := [];
    } else {
      var rest := Zeros(n - 1);
      y := [0.0] + rest;
      assert y[1..] == rest;
    }
  }

  /** How many weights are positive. */
  ghost function Positives(x: seq<real>): nat {
    if x == [] then 0 else (if x[0] > 0.0 then 1 else 0) + Positives(x[1..])
  }

  lemma {:induction false} PositivesShrink(x: seq<real>, x': seq<real>)
    requires |x| == |x'| && forall i :: 0 <= i < |x| ==> x'[i] <= x[i]
    ensures Positives(x') <= Positives(x)
    ensures forall k :: 0 <= k < |x| && x'[k] <= 0.0 < x[k] ==> Positives(x') < Positives(x)
  {
    if x != [] {
      PositivesShrink(x[1..], x'[1..]);
      forall k | 0 <= k < |x| && x'[k] <= 0.0 < x[k] ensures Positives(x') < Positives(x) {
        if k > 0 {
          assert x[1..][k - 1] == x[k] && x'[1..][k - 1] == x'[k];
        }
      }
    }
  }

  // ----- flow decomposition -----

  /** Every simple s-t path along positive weights is in the list. */
  ghost predicate Covers(F: seq<Entry>, f: nat, x: seq<real>, s: NodeId, t: NodeId, paths: seq<Path>)
    requires |x| == |F|
  {
    forall p :: Flowing(F, f, x, s, p) && |p| >= 2 && p[|p| - 1] == t ==> p in paths
  }

  /** z is what x has left after the weighted paths. */
  ghost predicate Leaves(F: seq<Entry>, f: nat, x: seq<real>, paths: seq<Path>, y: seq<real>, z: seq<real>)
    requires |x| == |F| && |y| == |paths|
  {
    |z| == |F| && forall k :: 0 <= k < |F| ==> z[k] == x[k] - Load(F[k], f, paths, y)
  }

  /** Taking an amount off a path above the noise leaves a smaller flow with the same noise and the same paths to
      choose from. */
  lemma Peel(F: seq<Entry>, f: nat, x: seq<real>, s: NodeId, t: NodeId, value: real, paths: seq<Path>, p: Path, b: real)
    requires Keyed(F) && |x| == |F| && NonNegative(x) && Conserves(F, f, x, s, t, value)
    requires Covers(F, f, Clean(F, f, x), s, t, paths)
    requires Flowing(F, f, Clean(F, f, x), s, p) && p[|p| - 1] == t && b > 0.0
    requires forall i :: 0 <= i < |F| && OnPath(F[i], f, p) ==> b <= Clean(F, f, x)[i]
    ensures var x' := Reduced(F, f, x, p, b);
            && NonNegative(x') && Conserves(F, f, x', s, t, value - b) && Covers(F, f, Clean(F, f, x'), s, t, paths)
            && Noise(F, f, x') == Noise(F, f, x) && Clean(F, f, x') == Reduced(F, f, Clean(F, f, x), p, b)
  {
    hide Keyed;
    var c, x' := Clean(F, f, x), Reduced(F, f, x, p, b);
    FlowingHasLinks(F, f, c, s, p);
    forall z ensures Net(F, f, x', {z}) == Owes(z, s, t, value - b) {
      NetReduced(F, f, x, p, b, z);
      assert Net(F, f, x, {z}) == Owes(z, s, t, value);
    }
    hide Conserves;
    assert Clean(F, f, x') == Reduced(F, f, c, p, b);
    forall q | Flowing(F, f, Clean(F, f, x'), s, q) ensures Flowing(F, f, c, s, q) {
      LessFlows(F, f, c, Clean(F, f, x'), s, q);
    }
  }

  lemma LessFlows(F: seq<Entry>, f: nat, x: seq<real>, x': seq<real>, s: NodeId, q: Path)
    requires |x| == |x'| == |F| && Flowing(F, f, x', s, q) && forall i :: 0 <= i < |F| ==> x'[i] <= x[i]
    ensures Flowing(F, f, x, s, q)
  {
    forall h | 0 <= h < |q| - 1 ensures Link(F, f, x, q, h) {
      assert Link(F, f, x', q, h);
    }
  }

  ghost function AtLeastZero(a: real): real {
    if a > 0.0 then a else 0.0
  }

  /** Flow decomposition: the value, but for the noise, splits into weights on the listed paths; what is left over is
      not negative, and conserved. */
  lemma {:induction false} Decompose(
      F: seq<Entry>, f: nat, x: seq<real>, s: NodeId, t: NodeId, value: real, paths: seq<Path>)
      returns (y: seq<real>, z: seq<real>)
    requires Keyed(F) && |x| == |F| && NonNegative(x) && s != t
    requires Conserves(F, f, x, s, t, value) && Covers(F, f, Clean(F, f, x), s, t, paths)
    ensures |y| == |paths| && NonNegative(y) && Sum(y) == AtLeastZero(value - Sum(Noise(F, f, x)))
    ensures Leaves(F, f, x, paths, y, z) && NonNegative(z) && Conserves(F, f, z, s, t, value - Sum(y))
    decreases Positives(Clean(F, f, x)) + if value > Sum(Noise(F, f, x)) then 1 else 0
  {
    hide Keyed;
    hide Conserves;
    hide Covers;
    hide Flowing;
    hide OnPath;
    var noise := Sum(Noise(F, f, x));
    NoiseIsNonNegative(F, f, x);
    if value <= noise {
      y := Zeros(|paths|);
      z := x;
    } else {
      var c := Clean(F, f, x);
      var p := PathOf(F, f, x, s, t, value, paths);
      var b, k := Takeable(F, f, c, s, p, value - noise);
      Peel(F, f, x, s, t, value, paths, p, b);
      var x' := Reduced(F, f, x, p, b);
      PositivesShrink(c, Clean(F, f, x'));
      var y';
      y', z := Decompose(F, f, x', s, t, value - b, paths);
      var q :| 0 <= q < |paths| && paths[q] == p;
      y := y'[q := y'[q] + b];
      SumUpdate(y', q, b);
      forall i | 0 <= i < |F| ensures z[i] == x[i] - Load(F[i], f, paths, y) {
        LoadUpdate(F[i], f, paths, y', q, b);
      }
    }
  }

  lemma NoiseIsNonNegative(F: seq<Entry>, f: nat, x: seq<real>)
    requires |x| == |F| && NonNegative(x)
    ensures Sum(Noise(F, f, x)) >= 0.0
  {
    SumCovers(Noise(F, f, x));
  }

  lemma PathOf(F: seq<Entry>, f: nat, x: seq<real>, s: NodeId, t: NodeId, value: real, paths: seq<Path>)
      returns (p: Path)
    requires |x| == |F| && NonNegative(x) && s != t && value > Sum(Noise(F, f, x)) && value > 0.0
    requires Conserves(F, f, x, s, t, value) && Covers(F, f, Clean(F, f, x), s, t, paths)
    ensures Flowing(F, f, Clean(F, f, x), s, p) && p[|p| - 1] == t && p in paths
  {
    hide Conserves;
    p := PathExists(F, f, x, s, t, value);
  }

  lemma {:induction false} LoadCovers(e: Entry, f: nat, paths: seq<Path>, y: seq<real>, q: nat)
    requires |y| == |paths| && NonNegative(y) && q < |paths|
    ensures Load(e, f, paths, y) >= (if OnPath(e, f, paths[q]) then y[q] else 0.0)
    ensures Load(e, f, paths, y) >= 0.0
  {
    hide OnPath;
    assert forall i :: 0 <= i < |y[1..]| ==> y[1..][i] == y[i + 1];
    if q > 0 {
      LoadCovers(e, f, paths[1..], y[1..], q - 1);
    } else if |paths| > 1 {
      LoadCovers(e, f, paths[1..], y[1..], 0);
    } else {
      assert paths[1..] == [] && y[1..] == [];
    }
  }

  lemma {:induction false} SumCovers(y: seq<real>)
    requires NonNegative(y)
    ensures Sum(y) >= 0.0 && forall q :: 0 <= q < |y| ==> y[q] <= Sum(y)
  {
    if y != [] {
      assert forall i :: 0 <= i < |y[1..]| ==> y[1..][i] == y[i + 1];
      SumCovers(y[1..]);
      forall q | 0 <= q < |y| ensures y[q] <= Sum(y) {
        if q > 0 {
          assert y[1..][q - 1] == y[q];
        }
      }
    }
  }

  /** Larger terms make a larger sum, and an equal one only if all terms are equal. */
  lemma {:induction false} SumMonotone(a: seq<real>, b: seq<real>)
    requires |a| == |b| && forall q :: 0 <= q < |a| ==> a[q] <= b[q]
    ensures Sum(a) <= Sum(b)
    ensures Sum(a) == Sum(b) ==> a == b
  {
    if a != [] {
      SumMonotone(a[1..], b[1..]);
      assert a == [a[0]] + a[1..] && b == [b[0]] + b[1..];
    }
  }

  // ----- the solution of the flow model -----

  /** Flow f's ratios, entry by entry. */
  ghost function Weights(F: seq<Entry>, f: nat): (x: seq<real>)
    ensures |x| == |F|
  {
    seq(|F|, i requires 0 <= i < |F| => if F[i].flow == f then F[i].ratio else 0.0)
  }

  /** What the multi-commodity flow model promises of its solution: non-negative ratios that every node conserves, one
      unit going from s to t. */
  ghost predicate Conserved(F: seq<Entry>, f: nat, s: NodeId, t: NodeId)
    ensures Conserved(F, f, s, t) ==> Keyed(F) && s != t
  {
    && Keyed(F) && s != t && NonNegative(Weights(F, f))
    && Conserves(F, f, Weights(F, f), s, t, 1.0)
  }

  /** ... and nothing so small as to be taken for noise. */
  ghost predicate Solves(F: seq<Entry>, f: nat, s: NodeId, t: NodeId) {
    Conserved(F, f, s, t) && forall i :: 0 <= i < |F| && F[i].flow == f ==> F[i].ratio == 0.0 || F[i].ratio > EPSILON
  }

  /** What the entries that the search takes for noise add up to. */
  ghost function NoiseOf(F: seq<Entry>, f: nat): real {
    Sum(Noise(F, f, Weights(F, f)))
  }

  lemma {:induction false} SumOfZeros(y: seq<real>)
    requires forall i :: 0 <= i < |y| ==> y[i] == 0.0
    ensures Sum(y) == 0.0
  {
    if y != [] {
      SumOfZeros(y[1..]);
    }
  }

  lemma NoNoise(F: seq<Entry>, f: nat, s: NodeId, t: NodeId, x: seq<real>)
    requires Solves(F, f, s, t) && |x| == |F| && NonNegative(x)
    requires forall i :: 0 <= i < |F| ==> x[i] <= Weights(F, f)[i]
    ensures Sum(Noise(F, f, x)) == 0.0
  {
    hide Conserved;
    SumOfZeros(Noise(F, f, x));
  }

  ghost function PathsOf(routes: seq<Item>): (p: seq<Path>)
    ensures |p| == |routes|
  {
    seq(|routes|, i requires 0 <= i < |routes| => routes[i].path)
  }

  ghost function RatiosOf(routes: seq<Item>): (y: seq<real>)
    ensures |y| == |routes|
  {
    seq(|routes|, i requires 0 <= i < |routes| => routes[i].ratio)
  }

  /** A path along positive weights above the noise is a trail of the search. */
  lemma FlowingIsTrail(F: seq<Entry>, f: nat, x: seq<real>, v: NodeId, p: Path)
    requires |x| == |F| && Flowing(F, f, x, v, p)
    requires forall i :: 0 <= i < |F| && F[i].flow == f && x[i] > 0.0 ==> F[i].ratio > EPSILON
    ensures Trail(F, f, v, p)
  {
    forall h | 0 <= h < |p| - 1 ensures Step(F, f, p, h) {
      assert Link(F, f, x, p, h);
      var i :| 0 <= i < |F| && F[i].flow == f && F[i].u == p[h] && F[i].v == p[h + 1] && x[i] > 0.0;
      assert Carrying(F[i], f, p[h]);
    }
  }

  /** A bound on all links of a path, and on 1, is a bound on its bottleneck. */
  lemma {:induction false} BottleneckBounds(F: seq<Entry>, f: nat, p: Path, w: real)
    requires w <= 1.0 && forall h :: 0 <= h < |p| - 1 ==> w <= RatioAt(F, f, p, h)
    ensures w <= Bottleneck(F, f, p)
    decreases |p|
  {
    hide Ratio;
    if |p| > 1 {
      var q := p[..|p| - 1];
      forall h | 0 <= h < |q| - 1 ensures w <= RatioAt(F, f, q, h) {
        assert RatioAt(F, f, p, h) == RatioAt(F, f, q, h);
      }
      BottleneckBounds(F, f, q, w);
      assert w <= RatioAt(F, f, p, |p| - 2);
    }
  }

  ghost function RatioAt(F: seq<Entry>, f: nat, p: Path, h: nat): real
    requires h + 1 < |p|
  {
    Ratio(F, f, p[h], p[h + 1])
  }

  /** The entry of link h of a route, with the ratio the search saw. */
  lemma EntryOfStep(F: seq<Entry>, f: nat, p: Path, h: nat) returns (i: nat)
    requires Keyed(F) && h + 1 < |p| && Step(F, f, p, h)
    ensures i < |F| && F[i].flow == f && Between(F[i], p, h) && OnPath(F[i], f, p)
    ensures RatioAt(F, f, p, h) == F[i].ratio > EPSILON
  {
    i :| 0 <= i < |F| && Carrying(F[i], f, p[h]) && F[i].v == p[h + 1];
    RatioOfEntry(F, i);
    assert Between(F[i], p, h);
  }

  /** The routes' decomposition of a solution, or of a part of it that is conserved just as well: weights that sum to
      one but for the noise, none above its route's ratio. */
  lemma RoutesDecompose(F: seq<Entry>, f: nat, s: NodeId, t: NodeId, routes: seq<Item>, x: seq<real>)
      returns (y: seq<real>, z: seq<real>)
    requires Conserved(F, f, s, t) && Enumerates(F, f, s, t, routes)
    requires |x| == |F| && NonNegative(x) && Conserves(F, f, x, s, t, 1.0)
    requires forall i :: 0 <= i < |F| ==> x[i] <= Weights(F, f)[i]
    ensures |y| == |routes| && NonNegative(y) && Sum(y) == AtLeastZero(1.0 - Sum(Noise(F, f, x)))
    ensures forall q :: 0 <= q < |y| ==> y[q] <= routes[q].ratio
    ensures Leaves(F, f, x, PathsOf(routes), y, z) && NonNegative(z) && Conserves(F, f, z, s, t, 1.0 - Sum(y))
  {
    hide Conserves;
    hide Keyed;
    hide Flowing;
    hide OnPath;
    hide Bottleneck;
    hide Trail;
    var paths := PathsOf(routes);
    RoutesCover(F, f, s, t, routes, x);
    y, z := Decompose(F, f, x, s, t, 1.0, paths);
    NoiseIsNonNegative(F, f, x);
    forall q | 0 <= q < |y| ensures y[q] <= routes[q].ratio {
      WeightBelowRatio(F, f, s, t, routes, x, y, z, q);
    }
  }

  lemma SolutionDecompose(F: seq<Entry>, f: nat, s: NodeId, t: NodeId, routes: seq<Item>, x: seq<real>)
      returns (y: seq<real>, z: seq<real>)
    requires Solves(F, f, s, t) && Enumerates(F, f, s, t, routes)
    requires |x| == |F| && NonNegative(x) && Conserves(F, f, x, s, t, 1.0)
    requires forall i :: 0 <= i < |F| ==> x[i] <= Weights(F, f)[i]
    ensures |y| == |routes| && NonNegative(y) && Sum(y) == 1.0
    ensures forall q :: 0 <= q < |y| ==> y[q] <= routes[q].ratio
    ensures Leaves(F, f, x, PathsOf(routes), y, z) && NonNegative(z) && Conserves(F, f, z, s, t, 0.0)
  {
    hide Enumerates;
    hide Conserves;
    hide Conserved;
    NoNoise(F, f, s, t, x);
    y, z := RoutesDecompose(F, f, s, t, routes, x);
  }

  lemma RoutesCover(F: seq<Entry>, f: nat, s: NodeId, t: NodeId, routes: seq<Item>, x: seq<real>)
    requires Enumerates(F, f, s, t, routes) && |x| == |F|
    requires forall i :: 0 <= i < |F| ==> x[i] <= Weights(F, f)[i]
    ensures Covers(F, f, Clean(F, f, x), s, t, PathsOf(routes))
  {
    hide Flowing;
    hide Trail;
    var c := Clean(F, f, x);
    forall p | Flowing(F, f, c, s, p) && |p| >= 2 && p[|p| - 1] == t ensures p in PathsOf(routes) {
      FlowingIsTrail(F, f, c, s, p);
      assert Route(F, f, s, t, p) && Found(routes, p);
      var i :| 0 <= i < |routes| && routes[i].path == p;
      assert PathsOf(routes)[i] == p;
    }
  }

  lemma WeightBelowRatio(
      F: seq<Entry>, f: nat, s: NodeId, t: NodeId, routes: seq<Item>, x: seq<real>, y: seq<real>, z: seq<real>, q: nat)
    requires Keyed(F) && Enumerates(F, f, s, t, routes) && q < |routes|
    requires |x| == |F| && forall i :: 0 <= i < |F| ==> x[i] <= Weights(F, f)[i]
    requires |y| == |routes| && NonNegative(y) && Sum(y) <= 1.0
    requires Leaves(F, f, x, PathsOf(routes), y, z) && NonNegative(z)
    ensures y[q] <= routes[q].ratio
  {
    hide Keyed;
    hide Bottleneck;
    hide OnPath;
    var p := routes[q].path;
    assert Route(F, f, s, t, p);
    SumCovers(y);
    forall h | 0 <= h < |p| - 1 ensures y[q] <= RatioAt(F, f, p, h) {
      assert Step(F, f, p, h);
      var i := EntryOfStep(F, f, p, h);
      assert PathsOf(routes)[q] == p;
      LoadCovers(F[i], f, PathsOf(routes), y, q);
      assert z[i] >= 0.0;
    }
    BottleneckBounds(F, f, p, y[q]);
  }

  /** The splitting ratios of any conserved F sum to at least one, less the noise. */
  lemma RatiosSumToAtLeast(F: seq<Entry>, f: nat, s: NodeId, t: NodeId, routes: seq<Item>)
    requires Conserved(F, f, s, t) && Enumerates(F, f, s, t, routes)
    ensures Sum(RatiosOf(routes)) >= 1.0 - NoiseOf(F, f)
  {
    hide Enumerates;
    hide Conserves;
    hide Keyed;
    var y, z := RoutesDecompose(F, f, s, t, routes, Weights(F, f));
    SumMonotone(y, RatiosOf(routes));
  }

  /** Those of a solution without noise sum to at least one. */
  lemma RatiosSumToAtLeastOne(F: seq<Entry>, f: nat, s: NodeId, t: NodeId, routes: seq<Item>)
    requires Solves(F, f, s, t) && Enumerates(F, f, s, t, routes)
    ensures Sum(RatiosOf(routes)) >= 1.0
  {
    hide Enumerates;
    RatiosSumToAtLeast(F, f, s, t, routes);
    NoNoise(F, f, s, t, Weights(F, f));
  }

  // ----- when the ratios sum to exactly one -----

  /** The entry is on a cycle of links that carry flow f: from its end there is a way back to its start. */
  ghost predicate OnCycle(F: seq<Entry>, f: nat, e: Entry) {
    exists p :: Trail(F, f, e.v, p) && p[|p| - 1] == e.u
  }

  ghost predicate Acyclic(F: seq<Entry>, f: nat) {
    forall k :: 0 <= k < |F| && F[k].flow == f && F[k].ratio > EPSILON ==> !OnCycle(F, f, F[k])
  }

  /** Off all cycles the routes account for the whole flow: nothing is left over. */
  lemma NothingLeft(F: seq<Entry>, f: nat, s: NodeId, t: NodeId, routes: seq<Item>, y: seq<real>, z: seq<real>, k: nat)
    requires Solves(F, f, s, t) && |y| == |routes| && NonNegative(y)
    requires Leaves(F, f, Weights(F, f), PathsOf(routes), y, z) && NonNegative(z) && Conserves(F, f, z, s, t, 0.0)
    requires k < |F| && F[k].flow == f && !OnCycle(F, f, F[k])
    ensures F[k].ratio == Load(F[k], f, PathsOf(routes), y)
  {
    hide Conserves;
    hide Keyed;
    hide OnPath;
    var x, paths := Weights(F, f), PathsOf(routes);
    forall i | 0 <= i < |F| ensures z[i] <= x[i] {
      LoadIsNonNegative(F[i], f, paths, y);
    }
    if z[k] > 0.0 {
      CirculationNeedsCycle(F, f, z, s, t, k);
      var p :| Flowing(F, f, z, F[k].v, p) && p[|p| - 1] == F[k].u;
      FlowingIsTrail(F, f, z, F[k].v, p);
      assert false;
    }
  }

  lemma LoadIsNonNegative(e: Entry, f: nat, paths: seq<Path>, y: seq<real>)
    requires |y| == |paths| && NonNegative(y)
    ensures Load(e, f, paths, y) >= 0.0
  {
    if paths != [] {
      LoadCovers(e, f, paths, y, 0);
    }
  }

  // ----- taking flow off a cycle -----

  lemma TrailFlows(F: seq<Entry>, f: nat, v: NodeId, p: Path)
    requires Trail(F, f, v, p)
    ensures Flowing(F, f, Weights(F, f), v, p)
  {
    forall h | 0 <= h < |p| - 1 ensures Link(F, f, Weights(F, f), p, h) {
      assert Step(F, f, p, h);
      var i :| 0 <= i < |F| && Carrying(F[i], f, p[h]) && F[i].v == p[h + 1];
      assert Weights(F, f)[i] > 0.0;
    }
  }

  /** Every entry on a trail is above the noise. */
  lemma TrailCarries(F: seq<Entry>, f: nat, v: NodeId, p: Path, i: nat)
    requires Keyed(F) && Trail(F, f, v, p) && i < |F| && OnPath(F[i], f, p)
    ensures F[i].ratio > EPSILON
  {
    var h :| 0 <= h < |p| - 1 && Between(F[i], p, h);
    assert Step(F, f, p, h);
    var j :| 0 <= j < |F| && Carrying(F[j], f, p[h]) && F[j].v == p[h + 1];
    assert forall z :: 0 <= z < |F| && z != i ==> !SameKey(F[z], F[i]);
  }

  /** Taking a little off every link of a cycle leaves what every node conserves as it was. */
  lemma OffCycle(F: seq<Entry>, f: nat, s: NodeId, t: NodeId, k: nat) returns (x: seq<real>)
    requires Solves(F, f, s, t) && k < |F| && F[k].flow == f && F[k].ratio > EPSILON && OnCycle(F, f, F[k])
    ensures |x| == |F| && NonNegative(x) && Conserves(F, f, x, s, t, 1.0)
    ensures forall i :: 0 <= i < |F| ==> x[i] <= Weights(F, f)[i]
    ensures x[k] < F[k].ratio
  {
    hide Keyed;
    hide Carries;
    var p :| Trail(F, f, F[k].v, p) && p[|p| - 1] == F[k].u;
    TrailFlows(F, f, F[k].v, p);
    FlowingHasLinks(F, f, Weights(F, f), F[k].v, p);
    var x0 := Weights(F, f);
    var x1 := Reduced(F, f, x0, p, EPSILON);
    assert !OnPath(F[k], f, p) by {
      assert forall h :: 0 < h < |p| ==> p[h] != p[0];
    }
    x := x1[k := x1[k] - EPSILON];
    forall i | 0 <= i < |F| ensures 0.0 <= x[i] <= x0[i] {
      if OnPath(F[i], f, p) {
        TrailCarries(F, f, F[k].v, p, i);
      }
    }
    forall z ensures Net(F, f, x, {z}) == Owes(z, s, t, 1.0) {
      NetReduced(F, f, x0, p, EPSILON, z);
      NetUpdate(F, f, x1, k, x1[k] - EPSILON, {z});
      assert Net(F, f, x0, {z}) == Owes(z, s, t, 1.0);
    }
  }

  /** If the ratios sum to one, the weighted routes do not account for all of a link on a cycle. */
  lemma CycleNotCovered(F: seq<Entry>, f: nat, s: NodeId, t: NodeId, routes: seq<Item>, k: nat)
    requires Solves(F, f, s, t) && Enumerates(F, f, s, t, routes) && Sum(RatiosOf(routes)) == 1.0
    requires k < |F| && F[k].flow == f && F[k].ratio > EPSILON && OnCycle(F, f, F[k])
    ensures Load(F[k], f, PathsOf(routes), RatiosOf(routes)) < F[k].ratio
  {
    hide Solves;
    hide Enumerates;
    hide Conserves;
    hide OnCycle;
    hide Load;
    var x := OffCycle(F, f, s, t, k);
    var y, z := SolutionDecompose(F, f, s, t, routes, x);
    SumMonotone(y, RatiosOf(routes));
    assert z[k] >= 0.0;
  }

  // ----- links of one route only -----

  ghost predicate OwnLink(e: Entry, f: nat, routes: seq<Item>, q: nat)
    requires q < |routes|
  {
    OnPath(e, f, routes[q].path) && forall j :: 0 <= j < |routes| && j != q ==> !OnPath(e, f, routes[j].path)
  }

  /** Route q has a link that is on no other route and on no cycle. */
  ghost predicate HasFreeLink(F: seq<Entry>, f: nat, routes: seq<Item>, q: nat)
    requires q < |routes|
  {
    exists k :: 0 <= k < |F| && OwnLink(F[k], f, routes, q) && !OnCycle(F, f, F[k])
  }

  /** The load of an own link is its route's weight. */
  lemma {:induction false} LoadOfOwnLink(e: Entry, f: nat, paths: seq<Path>, y: seq<real>, q: nat)
    requires |y| == |paths| && q < |paths| && OnPath(e, f, paths[q])
    requires forall j :: 0 <= j < |paths| && j != q ==> !OnPath(e, f, paths[j])
    ensures Load(e, f, paths, y) == y[q]
  {
    hide OnPath;
    assert forall j :: 0 <= j < |paths[1..]| ==> paths[1..][j] == paths[j + 1];
    if q == 0 {
      LoadOfNone(e, f, paths[1..], y[1..]);
    } else {
      LoadOfOwnLink(e, f, paths[1..], y[1..], q - 1);
    }
  }

  lemma {:induction false} LoadOfNone(e: Entry, f: nat, paths: seq<Path>, y: seq<real>)
    requires |y| == |paths| && forall j :: 0 <= j < |paths| ==> !OnPath(e, f, paths[j])
    ensures Load(e, f, paths, y) == 0.0
  {
    hide OnPath;
    if paths != [] {
      assert forall j :: 0 <= j < |paths[1..]| ==> paths[1..][j] == paths[j + 1];
      LoadOfNone(e, f, paths[1..], y[1..]);
    }
  }

  /** Two weighted paths over the same entry load it at least with both weights. */
  lemma {:induction false} LoadCoversTwo(e: Entry, f: nat, paths: seq<Path>, y: seq<real>, q: nat, j: nat)
    requires |y| == |paths| && NonNegative(y) && q < j < |paths| && OnPath(e, f, paths[q]) && OnPath(e, f, paths[j])
    ensures Load(e, f, paths, y) >= y[q] + y[j]
  {
    hide OnPath;
    assert forall i :: 0 <= i < |y[1..]| ==> y[1..][i] == y[i + 1];
    assert paths[1..][j - 1] == paths[j];
    if q == 0 {
      LoadCovers(e, f, paths[1..], y[1..], j - 1);
    } else {
      assert paths[1..][q - 1] == paths[q];
      LoadCoversTwo(e, f, paths[1..], y[1..], q - 1, j - 1);
    }
  }

  /** A route's ratio is at most that of any of its links. */
  lemma {:induction false} BottleneckBelow(F: seq<Entry>, f: nat, p: Path, h: nat)
    requires h + 1 < |p|
    ensures Bottleneck(F, f, p) <= RatioAt(F, f, p, h)
    decreases |p|
  {
    hide Ratio;
    var q := p[..|p| - 1];
    if h < |p| - 2 {
      BottleneckBelow(F, f, q, h);
      assert RatioAt(F, f, p, h) == RatioAt(F, f, q, h);
    }
  }

  /** ... it equals one of them, unless all are above one. */
  lemma {:induction false} BottleneckAttained(F: seq<Entry>, f: nat, p: Path) returns (h: nat)
    requires |p| >= 2
    ensures h + 1 < |p|
    ensures Bottleneck(F, f, p) == 1.0 || Bottleneck(F, f, p) == RatioAt(F, f, p, h)
    decreases |p|
  {
    hide Ratio;
    var q := p[..|p| - 1];
    h := |p| - 2;
    if Bottleneck(F, f, q) <= RatioAt(F, f, p, h) && |q| >= 2 {
      h := BottleneckAttained(F, f, q);
      assert RatioAt(F, f, p, h) == RatioAt(F, f, q, h);
    }
  }

  lemma RatioIsPositive(F: seq<Entry>, f: nat, s: NodeId, t: NodeId, routes: seq<Item>, q: nat)
    requires Keyed(F) && Enumerates(F, f, s, t, routes) && q < |routes|
    ensures routes[q].ratio >= EPSILON
  {
    hide Keyed;
    hide Bottleneck;
    var p := routes[q].path;
    assert Route(F, f, s, t, p);
    forall h | 0 <= h < |p| - 1 ensures EPSILON <= RatioAt(F, f, p, h) {
      assert Step(F, f, p, h);
      var i := EntryOfStep(F, f, p, h);
    }
    BottleneckBounds(F, f, p, EPSILON);
  }

  /** An entry on a route of the list is one of its links. */
  lemma EntryOnRoute(F: seq<Entry>, f: nat, s: NodeId, t: NodeId, routes: seq<Item>, q: nat, k: nat)
    requires Keyed(F) && Enumerates(F, f, s, t, routes) && q < |routes|
    requires k < |F| && OnPath(F[k], f, routes[q].path)
    ensures routes[q].ratio <= F[k].ratio
  {
    hide Keyed;
    hide Bottleneck;
    var p := routes[q].path;
    var h :| 0 <= h < |p| - 1 && Between(F[k], p, h);
    BottleneckBelow(F, f, p, h);
    RatioOfEntry(F, k);
  }

  /** With a free link, a route's ratio is exactly its weight. */
  lemma FreeLinkIsExact(
      F: seq<Entry>, f: nat, s: NodeId, t: NodeId, routes: seq<Item>, y: seq<real>, z: seq<real>, q: nat)
    requires Solves(F, f, s, t) && Enumerates(F, f, s, t, routes) && |y| == |routes| && NonNegative(y)
    requires Leaves(F, f, Weights(F, f), PathsOf(routes), y, z) && NonNegative(z) && Conserves(F, f, z, s, t, 0.0)
    requires q < |routes| && HasFreeLink(F, f, routes, q)
    ensures routes[q].ratio <= y[q]
  {
    hide Keyed;
    hide Enumerates;
    hide Conserves;
    hide OnCycle;
    hide Leaves;
    var k :| 0 <= k < |F| && OwnLink(F[k], f, routes, q) && !OnCycle(F, f, F[k]);
    var paths := PathsOf(routes);
    assert paths[q] == routes[q].path;
    assert forall j :: 0 <= j < |paths| ==> paths[j] == routes[j].path;
    NothingLeft(F, f, s, t, routes, y, z, k);
    LoadOfOwnLink(F[k], f, paths, y, q);
    EntryOnRoute(F, f, s, t, routes, q, k);
  }

  lemma {:induction false} BottleneckAtMostOne(F: seq<Entry>, f: nat, p: Path)
    ensures Bottleneck(F, f, p) <= 1.0
    decreases |p|
  {
    hide Ratio;
    if |p| > 1 {
      BottleneckAtMostOne(F, f, p[..|p| - 1]);
    }
  }

  /** The link that a route of several gets its ratio from. */
  lemma BottleneckLink(F: seq<Entry>, f: nat, s: NodeId, t: NodeId, routes: seq<Item>, q: nat) returns (k: nat)
    requires Keyed(F) && Enumerates(F, f, s, t, routes) && q < |routes| && routes[q].ratio != 1.0
    ensures k < |F| && F[k].flow == f && OnPath(F[k], f, routes[q].path)
    ensures F[k].ratio == routes[q].ratio && F[k].ratio > EPSILON
  {
    hide Keyed;
    hide Bottleneck;
    hide OnPath;
    var p := routes[q].path;
    assert Route(F, f, s, t, p);
    var h := BottleneckAttained(F, f, p);
    assert Step(F, f, p, h);
    k := EntryOfStep(F, f, p, h);
  }

  /** Ratios that sum to one are below one, unless there is one only. */
  lemma RatioBelowOne(F: seq<Entry>, f: nat, s: NodeId, t: NodeId, routes: seq<Item>, q: nat)
    requires Keyed(F) && Enumerates(F, f, s, t, routes) && q < |routes| && |routes| != 1
    requires Sum(RatiosOf(routes)) == 1.0
    ensures routes[q].ratio < 1.0 && NonNegative(RatiosOf(routes))
  {
    hide Keyed;
    hide Enumerates;
    forall j | 0 <= j < |routes| ensures RatiosOf(routes)[j] > 0.0 {
      RatioIsPositive(F, f, s, t, routes, j);
    }
    var j := if q == 0 then 1 else 0;
    SumCoversTwo(RatiosOf(routes), if q < j then q else j, if q < j then j else q);
  }

  /** If the ratios of several routes sum to one, each has a free link. */
  lemma ExactHasFreeLink(F: seq<Entry>, f: nat, s: NodeId, t: NodeId, routes: seq<Item>, q: nat)
    requires Solves(F, f, s, t) && Enumerates(F, f, s, t, routes) && q < |routes| && |routes| != 1
    requires Sum(RatiosOf(routes)) == 1.0
    requires forall k :: 0 <= k < |F| && F[k].flow == f ==>
              Load(F[k], f, PathsOf(routes), RatiosOf(routes)) <= F[k].ratio
    ensures HasFreeLink(F, f, routes, q)
  {
    hide Keyed;
    hide Conserves;
    hide Enumerates;
    hide OnPath;
    hide OnCycle;
    hide Load;
    var y, paths := RatiosOf(routes), PathsOf(routes);
    RatioBelowOne(F, f, s, t, routes, q);
    var k := BottleneckLink(F, f, s, t, routes, q);
    LoadCovers(F[k], f, paths, y, q);
    if OnCycle(F, f, F[k]) {
      CycleNotCovered(F, f, s, t, routes, k);
    }
    forall j | 0 <= j < |routes| && j != q ensures !OnPath(F[k], f, routes[j].path) {
      RatioIsPositive(F, f, s, t, routes, j);
      if OnPath(F[k], f, routes[j].path) {
        LoadCoversTwo(F[k], f, paths, y, if q < j then q else j, if q < j then j else q);
        assert false;
      }
    }
    assert OwnLink(F[k], f, routes, q);
  }

  lemma {:induction false} SumCoversTwo(y: seq<real>, q: nat, j: nat)
    requires NonNegative(y) && q < j < |y|
    ensures Sum(y) >= y[q] + y[j]
  {
    assert forall i :: 0 <= i < |y[1..]| ==> y[1..][i] == y[i + 1];
    if q == 0 {
      SumCovers(y[1..]);
      assert y[1..][j - 1] == y[j];
    } else {
      SumCoversTwo(y[1..], q - 1, j - 1);
    }
  }

  /** There is one route, or every route has a free link: a condition on F alone. */
  ghost predicate AllFree(F: seq<Entry>, f: nat, s: NodeId, t: NodeId) {
    || (forall p, q :: Route(F, f, s, t, p) && Route(F, f, s, t, q) ==> p == q)
    || (forall p :: Route(F, f, s, t, p) ==> IsFree(F, f, s, t, p))
  }

  /** Route p has a link that is on no other route and on no cycle. */
  ghost predicate IsFree(F: seq<Entry>, f: nat, s: NodeId, t: NodeId, p: Path) {
    exists k :: 0 <= k < |F| && OwnedBy(F[k], F, f, s, t, p) && !OnCycle(F, f, F[k])
  }

  ghost predicate OwnedBy(e: Entry, F: seq<Entry>, f: nat, s: NodeId, t: NodeId, p: Path) {
    OnPath(e, f, p) && forall q :: Route(F, f, s, t, q) && OnPath(e, f, q) ==> q == p
  }

  /** The same in terms of the routes found. */
  ghost predicate AllFreeOf(F: seq<Entry>, f: nat, routes: seq<Item>) {
    |routes| == 1 || forall q :: 0 <= q < |routes| ==> HasFreeLink(F, f, routes, q)
  }

  lemma OwnedIsOwn(F: seq<Entry>, f: nat, s: NodeId, t: NodeId, routes: seq<Item>, e: Entry, q: nat)
    requires Enumerates(F, f, s, t, routes) && q < |routes|
    ensures OwnedBy(e, F, f, s, t, routes[q].path) <==> OwnLink(e, f, routes, q)
  {
    hide Route;
    hide OnPath;
    hide Bottleneck;
    if OwnLink(e, f, routes, q) {
      forall p | Route(F, f, s, t, p) && OnPath(e, f, p) ensures p == routes[q].path {
        assert Found(routes, p);
        var i :| 0 <= i < |routes| && routes[i].path == p;
      }
    }
  }

  lemma AllFreeIff(F: seq<Entry>, f: nat, s: NodeId, t: NodeId, routes: seq<Item>)
    requires Enumerates(F, f, s, t, routes) && routes != []
    ensures AllFree(F, f, s, t) <==> AllFreeOf(F, f, routes)
  {
    hide Route;
    hide OwnedBy;
    hide OwnLink;
    hide OnCycle;
    hide Bottleneck;
    forall q, k | 0 <= q < |routes| && 0 <= k < |F|
      ensures OwnedBy(F[k], F, f, s, t, routes[q].path) <==> OwnLink(F[k], f, routes, q)
    {
      OwnedIsOwn(F, f, s, t, routes, F[k], q);
    }
    assert forall q :: 0 <= q < |routes| ==> (IsFree(F, f, s, t, routes[q].path) <==> HasFreeLink(F, f, routes, q));
    assert forall p :: Route(F, f, s, t, p) ==> Found(routes, p);
    assert |routes| > 1 ==> routes[0].path != routes[1].path;
  }

  /** The weighted routes give back the solution, link by link. */
  ghost predicate Reproduces(F: seq<Entry>, f: nat, routes: seq<Item>) {
    forall k :: 0 <= k < |F| && F[k].flow == f ==> Load(F[k], f, PathsOf(routes), RatiosOf(routes)) == F[k].ratio
  }

  lemma RatiosSumToOneOf(F: seq<Entry>, f: nat, s: NodeId, t: NodeId, routes: seq<Item>)
    requires Solves(F, f, s, t) && Enumerates(F, f, s, t, routes)
    ensures Sum(RatiosOf(routes)) == 1.0 <==> AllFreeOf(F, f, routes)
    ensures Sum(RatiosOf(routes)) == 1.0 ==> (Reproduces(F, f, routes) <==> Acyclic(F, f))
  {
    hide Solves;
    hide Enumerates;
    hide HasFreeLink;
    hide Conserves;
    hide Keyed;
    hide Acyclic;
    hide Reproduces;
    hide Load;
    SolutionIsConserved(F, f, s, t);
    var y, z := SolutionDecompose(F, f, s, t, routes, Weights(F, f));
    SumMonotone(y, RatiosOf(routes));
    if Sum(RatiosOf(routes)) == 1.0 {
      WithinSolution(F, f, routes, y, z);
      forall q | 0 <= q < |routes| && |routes| != 1 ensures HasFreeLink(F, f, routes, q) {
        ExactHasFreeLink(F, f, s, t, routes, q);
      }
      ReproducesIff(F, f, s, t, routes, y, z);
    }
    if AllFreeOf(F, f, routes) {
      if |routes| == 1 {
        SingleRoute(F, f, s, t, routes, y);
      } else {
        forall q | 0 <= q < |routes| ensures RatiosOf(routes)[q] == y[q] {
          FreeLinkIsExact(F, f, s, t, routes, y, z, q);
        }
      }
      assert RatiosOf(routes) == y;
    }
  }

  /** Exactly when the splitting ratios of a solution, cyclic or not, sum to one: there is one route, or every route
      has a link that is on no other route and on no cycle.  Then the weighted routes reproduce the solution if
      and only if it has no cycle. */
  lemma RatiosSumToOneIff(F: seq<Entry>, f: nat, s: NodeId, t: NodeId, routes: seq<Item>)
    requires Solves(F, f, s, t) && Enumerates(F, f, s, t, routes)
    ensures Sum(RatiosOf(routes)) == 1.0 <==> AllFree(F, f, s, t)
    ensures Sum(RatiosOf(routes)) == 1.0 ==> (Reproduces(F, f, routes) <==> Acyclic(F, f))
  {
    hide Solves;
    hide Enumerates;
    hide AllFree;
    hide AllFreeOf;
    hide Reproduces;
    hide Acyclic;
    RatiosSumToOneOf(F, f, s, t, routes);
    RatiosSumToAtLeastOne(F, f, s, t, routes);
    AllFreeIff(F, f, s, t, routes);
  }

  lemma SolutionIsConserved(F: seq<Entry>, f: nat, s: NodeId, t: NodeId)
    requires Solves(F, f, s, t)
    ensures Keyed(F) && NonNegative(Weights(F, f)) && Conserves(F, f, Weights(F, f), s, t, 1.0)
  {
  }

  /** The weighted routes of a decomposition stay within the solution. */
  lemma WithinSolution(F: seq<Entry>, f: nat, routes: seq<Item>, y: seq<real>, z: seq<real>)
    requires |y| == |routes| && NonNegative(z) && Leaves(F, f, Weights(F, f), PathsOf(routes), y, z)
    ensures forall k :: 0 <= k < |F| && F[k].flow == f ==> Load(F[k], f, PathsOf(routes), y) <= F[k].ratio
  {
    hide Load;
    assert forall k :: 0 <= k < |F| ==> z[k] >= 0.0;
  }

  lemma SingleRoute(F: seq<Entry>, f: nat, s: NodeId, t: NodeId, routes: seq<Item>, y: seq<real>)
    requires Enumerates(F, f, s, t, routes) && |routes| == 1 == |y| && Sum(y) == 1.0 && y[0] <= routes[0].ratio
    ensures routes[0].ratio == y[0]
  {
    assert y == [y[0]] && y[1..] == [];
    BottleneckAtMostOne(F, f, routes[0].path);
  }

  lemma ReproducesIff(F: seq<Entry>, f: nat, s: NodeId, t: NodeId, routes: seq<Item>, y: seq<real>, z: seq<real>)
    requires Solves(F, f, s, t) && Enumerates(F, f, s, t, routes) && y == RatiosOf(routes) && Sum(y) == 1.0
    requires NonNegative(y) && Leaves(F, f, Weights(F, f), PathsOf(routes), y, z) && NonNegative(z)
    requires Conserves(F, f, z, s, t, 0.0)
    ensures Reproduces(F, f, routes) <==> Acyclic(F, f)
  {
    hide Enumerates;
    hide Conserves;
    hide Keyed;
    hide OnCycle;
    hide Load;
    if Acyclic(F, f) {
      forall k | 0 <= k < |F| && F[k].flow == f ensures Load(F[k], f, PathsOf(routes), y) == F[k].ratio {
        if OnCycle(F, f, F[k]) {
          LoadIsNonNegative(F[k], f, PathsOf(routes), y);
          assert F[k].ratio == 0.0 && z[k] >= 0.0;
        } else {
          NothingLeft(F, f, s, t, routes, y, z, k);
        }
      }
    } else {
      var k :| 0 <= k < |F| && F[k].flow == f && F[k].ratio > EPSILON && OnCycle(F, f, F[k]);
      CycleNotCovered(F, f, s, t, routes, k);
    }
  }

  ghost predicate LinkDisjoint(F: seq<Entry>, f: nat, routes: seq<Item>) {
    forall k, q, j :: 0 <= k < |F| && Shares(F[k], f, routes, q, j) ==> q == j
  }

  ghost predicate Shares(e: Entry, f: nat, routes: seq<Item>, q: nat, j: nat) {
    q < |routes| && j < |routes| && OnPath(e, f, routes[q].path) && OnPath(e, f, routes[j].path)
  }

  /** Route q has a link on no cycle. */
  ghost predicate LeavesCycles(F: seq<Entry>, f: nat, routes: seq<Item>, q: nat)
    requires q < |routes|
  {
    exists k :: 0 <= k < |F| && OnPath(F[k], f, routes[q].path) && !OnCycle(F, f, F[k])
  }

  /** Routes that share no link: the ratios sum to one if and only if there is one route, or every route has a link
      on no cycle. */
  lemma DisjointRoutesSumToOne(F: seq<Entry>, f: nat, s: NodeId, t: NodeId, routes: seq<Item>)
    requires Solves(F, f, s, t) && Enumerates(F, f, s, t, routes) && LinkDisjoint(F, f, routes)
    ensures Sum(RatiosOf(routes)) == 1.0 <==>
            |routes| == 1 || forall q :: 0 <= q < |routes| ==> LeavesCycles(F, f, routes, q)
    ensures Sum(RatiosOf(routes)) == 1.0 ==> (Reproduces(F, f, routes) <==> Acyclic(F, f))
  {
    hide Solves;
    hide Enumerates;
    hide OnCycle;
    hide OnPath;
    hide Acyclic;
    hide Reproduces;
    forall q | 0 <= q < |routes| ensures LeavesCycles(F, f, routes, q) <==> HasFreeLink(F, f, routes, q) {
      forall k | 0 <= k < |F| && OnPath(F[k], f, routes[q].path) ensures OwnLink(F[k], f, routes, q) {
        assert forall j :: 0 <= j < |routes| && OnPath(F[k], f, routes[j].path) ==> Shares(F[k], f, routes, q, j);
      }
    }
    RatiosSumToOneOf(F, f, s, t, routes);
  }

  // ----- solutions made of node-disjoint paths -----

  /** Simple s-t paths that share no interior node, and together contain every link that carries flow f. */
  ghost predicate MadeOf(F: seq<Entry>, f: nat, s: NodeId, t: NodeId, ps: seq<Path>) {
    && (forall i :: 0 <= i < |ps| ==> |ps[i]| >= 2 && Distinct(ps[i]) && ps[i][0] == s && ps[i][|ps[i]| - 1] == t)
    && ShareNoInterior(ps)
    && (forall k :: 0 <= k < |F| && F[k].flow == f && F[k].ratio > EPSILON ==> OnSome(F[k], f, ps))
  }

  ghost predicate OnSome(e: Entry, f: nat, ps: seq<Path>) {
    exists i :: 0 <= i < |ps| && OnPath(e, f, ps[i])
  }

  /** From an interior node of a path, or its end, the only way on is along that path. */
  lemma OnlyWayOn(F: seq<Entry>, f: nat, s: NodeId, t: NodeId, ps: seq<Path>, i: nat, a: nat, v: NodeId)
    requires s != t && MadeOf(F, f, s, t, ps) && i < |ps| && 0 < a < |ps[i]| && Carries(F, f, ps[i][a], v)
    ensures a + 1 < |ps[i]| && v == ps[i][a + 1]
  {
    var u := ps[i][a];
    var k :| 0 <= k < |F| && Carrying(F[k], f, u) && F[k].v == v;
    assert OnSome(F[k], f, ps);
    var j :| 0 <= j < |ps| && OnPath(F[k], f, ps[j]);
    var h :| 0 <= h < |ps[j]| - 1 && Between(F[k], ps[j], h);
    assert ps[j][h] == u;
    if a < |ps[i]| - 1 {
      assert Crosses(ps, i, a, j, h);
      assert h == a;
    }
  }

  /** A trail from inside a path follows the path. */
  lemma {:induction false} TrailFollows(
      F: seq<Entry>, f: nat, s: NodeId, t: NodeId, ps: seq<Path>, i: nat, a: nat, p: Path, n: nat)
    requires s != t && MadeOf(F, f, s, t, ps) && i < |ps| && 0 < a < |ps[i]|
    requires Trail(F, f, ps[i][a], p) && n < |p|
    ensures a + n < |ps[i]| && p[n] == ps[i][a + n]
  {
    hide MadeOf;
    hide Carries;
    if n > 0 {
      TrailFollows(F, f, s, t, ps, i, a, p, n - 1);
      assert Step(F, f, p, n - 1);
      OnlyWayOn(F, f, s, t, ps, i, a + n - 1, p[n]);
    }
  }

  lemma DisjointIsAcyclic(F: seq<Entry>, f: nat, s: NodeId, t: NodeId, ps: seq<Path>)
    requires s != t && MadeOf(F, f, s, t, ps)
    ensures Acyclic(F, f)
  {
    forall k | 0 <= k < |F| && F[k].flow == f && F[k].ratio > EPSILON ensures !OnCycle(F, f, F[k]) {
      assert OnSome(F[k], f, ps);
      var i :| 0 <= i < |ps| && OnPath(F[k], f, ps[i]);
      var h :| 0 <= h < |ps[i]| - 1 && Between(F[k], ps[i], h);
      forall p | Trail(F, f, F[k].v, p) ensures p[|p| - 1] != F[k].u {
        TrailFollows(F, f, s, t, ps, i, h + 1, p, |p| - 1);
      }
    }
  }

  /** Every route is one of the paths. */
  lemma RouteIsPath(F: seq<Entry>, f: nat, s: NodeId, t: NodeId, ps: seq<Path>, p: Path) returns (i: nat)
    requires s != t && MadeOf(F, f, s, t, ps) && Route(F, f, s, t, p)
    ensures i < |ps| && p == ps[i]
  {
    assert Step(F, f, p, 0);
    var k :| 0 <= k < |F| && Carrying(F[k], f, p[0]) && F[k].v == p[1];
    assert OnSome(F[k], f, ps);
    i :| 0 <= i < |ps| && OnPath(F[k], f, ps[i]);
    var h :| 0 <= h < |ps[i]| - 1 && Between(F[k], ps[i], h);
    assert h == 0;
    RestOfTrail(F, f, s, p);
    forall n | 1 <= n < |p| ensures n < |ps[i]| && p[n] == ps[i][n] {
      TrailFollows(F, f, s, t, ps, i, 1, p[1..], n - 1);
    }
    assert |p| == |ps[i]|;
  }

  lemma RestOfTrail(F: seq<Entry>, f: nat, s: NodeId, p: Path)
    requires Trail(F, f, s, p) && |p| >= 2
    ensures Trail(F, f, p[1], p[1..])
  {
    hide Carries;
    forall h | 0 <= h < |p| - 2 ensures Step(F, f, p[1..], h) {
      assert Step(F, f, p, h + 1);
    }
  }

  lemma PathsShareNoLink(F: seq<Entry>, f: nat, s: NodeId, t: NodeId, ps: seq<Path>, e: Entry, i: nat, j: nat)
    requires s != t && MadeOf(F, f, s, t, ps) && i < |ps| && j < |ps| && OnPath(e, f, ps[i]) && OnPath(e, f, ps[j])
    ensures ps[i] == ps[j]
  {
    var a :| 0 <= a < |ps[i]| - 1 && Between(e, ps[i], a);
    var b :| 0 <= b < |ps[j]| - 1 && Between(e, ps[j], b);
    if a > 0 {
      assert Crosses(ps, i, a, j, b);
    } else if a + 1 < |ps[i]| - 1 {
      assert Crosses(ps, i, a + 1, j, b + 1);
    } else {
      assert ps[i] == [s, t] && b == 0 && ps[j] == [s, t];
    }
  }

  /** A solution that is a bundle of node-disjoint paths: the ratios sum to exactly one and give back the
      solution, link by link. */
  lemma DisjointSolutionIsExact(F: seq<Entry>, f: nat, s: NodeId, t: NodeId, routes: seq<Item>, ps: seq<Path>)
    requires Solves(F, f, s, t) && Enumerates(F, f, s, t, routes) && MadeOf(F, f, s, t, ps)
    ensures Sum(RatiosOf(routes)) == 1.0 && Reproduces(F, f, routes)
  {
    hide Conserves;
    hide Keyed;
    hide MadeOf;
    hide OnPath;
    hide OnCycle;
    hide Reproduces;
    DisjointIsAcyclic(F, f, s, t, ps);
    forall k, q: nat, j: nat | 0 <= k < |F| && Shares(F[k], f, routes, q, j) ensures q == j {
      var a := RouteIsPath(F, f, s, t, ps, routes[q].path);
      var b := RouteIsPath(F, f, s, t, ps, routes[j].path);
      PathsShareNoLink(F, f, s, t, ps, F[k], a, b);
    }
    forall q | 0 <= q < |routes| ensures LeavesCycles(F, f, routes, q) {
      assert Route(F, f, s, t, routes[q].path) && Step(F, f, routes[q].path, 0);
      var k := EntryOfStep(F, f, routes[q].path, 0);
    }
    DisjointRoutesSumToOne(F, f, s, t, routes);
  }

  // ----- the sum can exceed one -----

  /** Two ways from 0 to 2 (direct and through 1), two from 2 to 4 (direct and through 3), half each. */
  const SHARED: seq<Entry> :=
    [Entry(0, 0, 2, 0.5), Entry(0, 0, 1, 0.5), Entry(0, 1, 2, 0.5), Entry(0, 2, 4, 0.5), Entry(0, 2, 3, 0.5),
    Entry(0, 3, 4, 0.5)]

  lemma NetStep(e: Entry, F: seq<Entry>, f: nat, w: real, x: seq<real>, R: set<NodeId>)
    requires |x| == |F|
    ensures Net([e] + F, f, [w] + x, R) == Term(e, f, w, R) + Net(F, f, x, R)
  {
    assert ([e] + F)[1..] == F && ([w] + x)[1..] == x;
  }

  lemma SharedConserves(z: NodeId)
    ensures Net(SHARED, 0, [0.5, 0.5, 0.5, 0.5, 0.5, 0.5], {z}) == Owes(z, 0, 4, 1.0)
  {
    hide Net;
    NetEmpty({z});
    NetStep(Entry(0, 3, 4, 0.5), [], 0, 0.5, [], {z});
    NetStep(Entry(0, 2, 3, 0.5), [Entry(0, 3, 4, 0.5)], 0, 0.5, [0.5], {z});
    NetStep(Entry(0, 2, 4, 0.5), [Entry(0, 2, 3, 0.5), Entry(0, 3, 4, 0.5)], 0, 0.5, [0.5, 0.5], {z});
    var lower := [Entry(0, 2, 4, 0.5), Entry(0, 2, 3, 0.5), Entry(0, 3, 4, 0.5)];
    NetStep(Entry(0, 1, 2, 0.5), lower, 0, 0.5, [0.5, 0.5, 0.5], {z});
    NetStep(Entry(0, 0, 1, 0.5), SHARED[2..], 0, 0.5, [0.5, 0.5, 0.5, 0.5], {z});
    NetStep(Entry(0, 0, 2, 0.5), SHARED[1..], 0, 0.5, [0.5, 0.5, 0.5, 0.5, 0.5], {z});
    assert [Entry(0, 3, 4, 0.5)] + [] == [Entry(0, 3, 4, 0.5)] && [0.5] + [] == [0.5];
    assert [Entry(0, 2, 3, 0.5)] + [Entry(0, 3, 4, 0.5)] == [Entry(0, 2, 3, 0.5), Entry(0, 3, 4, 0.5)];
    assert [0.5] + [0.5] == [0.5, 0.5];
    assert [Entry(0, 2, 4, 0.5)] + [Entry(0, 2, 3, 0.5), Entry(0, 3, 4, 0.5)] == lower;
    assert [0.5] + [0.5, 0.5] == [0.5, 0.5, 0.5];
    assert [Entry(0, 1, 2, 0.5)] + [Entry(0, 2, 4, 0.5), Entry(0, 2, 3, 0.5), Entry(0, 3, 4, 0.5)] == SHARED[2..];
    assert [0.5] + [0.5, 0.5, 0.5] == [0.5, 0.5, 0.5, 0.5];
    assert [Entry(0, 0, 1, 0.5)] + SHARED[2..] == SHARED[1..];
    assert [0.5] + [0.5, 0.5, 0.5, 0.5] == [0.5, 0.5, 0.5, 0.5, 0.5];
    assert [Entry(0, 0, 2, 0.5)] + SHARED[1..] == SHARED;
    assert [0.5] + [0.5, 0.5, 0.5, 0.5, 0.5] == [0.5, 0.5, 0.5, 0.5, 0.5, 0.5];
  }

  lemma NetEmpty(R: set<NodeId>)
    ensures Net([], 0, [], R) == 0.0
  {
  }

  lemma SharedSolves()
    ensures Solves(SHARED, 0, 0, 4)
  {
    hide Net;
    var x := [0.5, 0.5, 0.5, 0.5, 0.5, 0.5];
    assert Weights(SHARED, 0) == x;
    forall z ensures Net(SHARED, 0, x, {z}) == Owes(z, 0, 4, 1.0) {
      SharedConserves(z);
    }
  }

  lemma SharedCarries()
    ensures Carries(SHARED, 0, 0, 2) && Carries(SHARED, 0, 0, 1) && Carries(SHARED, 0, 1, 2)
    ensures Carries(SHARED, 0, 2, 4) && Carries(SHARED, 0, 2, 3) && Carries(SHARED, 0, 3, 4)
  {
    assert Carrying(SHARED[0], 0, 0) && Carrying(SHARED[1], 0, 0) && Carrying(SHARED[2], 0, 1);
    assert Carrying(SHARED[3], 0, 2) && Carrying(SHARED[4], 0, 2) && Carrying(SHARED[5], 0, 3);
  }

  /** The direct route shares its first link with one route and its last with another. */
  lemma SharedRoutes()
    ensures Route(SHARED, 0, 0, 4, [0, 2, 4]) && Route(SHARED, 0, 0, 4, [0, 1, 2, 4])
    ensures Route(SHARED, 0, 0, 4, [0, 2, 3, 4])
  {
    hide Carries;
    SharedCarries();
    assert Step(SHARED, 0, [0, 2, 4], 0) && Step(SHARED, 0, [0, 2, 4], 1);
    assert Step(SHARED, 0, [0, 1, 2, 4], 0) && Step(SHARED, 0, [0, 1, 2, 4], 1) && Step(SHARED, 0, [0, 1, 2, 4], 2);
    assert Step(SHARED, 0, [0, 2, 3, 4], 0) && Step(SHARED, 0, [0, 2, 3, 4], 1) && Step(SHARED, 0, [0, 2, 3, 4], 2);
  }

  lemma SharedLinks(e: Entry)
    requires OnPath(e, 0, [0, 2, 4])
    ensures OnPath(e, 0, [0, 2, 3, 4]) || OnPath(e, 0, [0, 1, 2, 4])
  {
    var h :| 0 <= h < 2 && Between(e, [0, 2, 4], h);
    if h == 0 {
      assert Between(e, [0, 2, 3, 4], 0);
    } else {
      assert Between(e, [0, 1, 2, 4], 2);
    }
  }

  /** Routes that share links can have ratios that sum to more than one. */
  lemma RatiosCanExceedOne(routes: seq<Item>)
    requires Enumerates(SHARED, 0, 0, 4, routes)
    ensures Sum(RatiosOf(routes)) > 1.0
  {
    hide Solves;
    hide Route;
    hide OnCycle;
    hide OnPath;
    hide Bottleneck;
    SharedSolves();
    SharedRoutes();
    assert Found(routes, [0, 2, 4]) && Found(routes, [0, 1, 2, 4]) && Found(routes, [0, 2, 3, 4]);
    var q :| 0 <= q < |routes| && routes[q].path == [0, 2, 4];
    var i :| 0 <= i < |routes| && routes[i].path == [0, 1, 2, 4];
    var j :| 0 <= j < |routes| && routes[j].path == [0, 2, 3, 4];
    assert q != i && q != j;
    forall k | 0 <= k < |SHARED| ensures !OwnLink(SHARED[k], 0, routes, q) {
      if OnPath(SHARED[k], 0, [0, 2, 4]) {
        SharedLinks(SHARED[k]);
      }
    }
    assert !HasFreeLink(SHARED, 0, routes, q);
    RatiosSumToOneOf(SHARED, 0, 0, 4, routes);
    RatiosSumToAtLeastOne(SHARED, 0, 0, 4, routes);
  }

  // ----- all flows of a solution -----

  /** A flow to be routed, and one that has been. */
  datatype Demand = Demand(source: NodeId, destination: NodeId, rate: real)
  datatype Routed = Routed(flow: nat, demand: Demand, routes: seq<Item>)

  ghost predicate Mentioned(F: seq<Entry>, f: nat) {
    exists i :: 0 <= i < |F| && F[i].flow == f
  }

  /** compute_mcf_flow_routes: in increasing order of flow index, the routes of every flow that the solution
      mentions.  Where the solution meets the model's constraints the ratios of a flow sum to at least one, less
      the noise. */
  method ComputeMcfFlowRoutes(demands: seq<Demand>, F: seq<Entry>) returns (routed: seq<Routed>)
    requires Keyed(F) && forall i :: 0 <= i < |F| ==> F[i].flow < |demands|
    ensures forall i, j :: 0 <= i < j < |routed| ==> routed[i].flow < routed[j].flow
    ensures forall f: nat :: Mentioned(F, f) <==> exists i :: 0 <= i < |routed| && routed[i].flow == f
    ensures forall i :: 0 <= i < |routed| ==>
              var r := routed[i];
              && r.flow < |demands| && r.demand == demands[r.flow]
              && Enumerates(F, r.flow, r.demand.source, r.demand.destination, r.routes)
              && (Conserved(F, r.flow, r.demand.source, r.demand.destination) ==>
                    Sum(RatiosOf(r.routes)) >= 1.0 - NoiseOf(F, r.flow))
  {
    hide Enumerates;
    hide Conserved;
    hide NoiseOf;
    hide Keyed;
    routed := [];
    for f := 0 to |demands|
      invariant forall i, j :: 0 <= i < j < |routed| ==> routed[i].flow < routed[j].flow
      invariant forall g: nat :: g < f && Mentioned(F, g) <==> exists i :: 0 <= i < |routed| && routed[i].flow == g
      invariant forall i :: 0 <= i < |routed| ==>
                  var r := routed[i];
                  && r.flow < f && r.demand == demands[r.flow]
                  && Enumerates(F, r.flow, r.demand.source, r.demand.destination, r.routes)
                  && (Conserved(F, r.flow, r.demand.source, r.demand.destination) ==>
                    Sum(RatiosOf(r.routes)) >= 1.0 - NoiseOf(F, r.flow))
    {
      if exists i :: 0 <= i < |F| && F[i].flow == f {
        assert Mentioned(F, f);
        var d := demands[f];
        var routes := TraverseGraphIterative(F, f, d.source, d.destination);
        if Conserved(F, f, d.source, d.destination) {
          RatiosSumToAtLeast(F, f, d.source, d.destination, routes);
        }
        ghost var before := routed;
        routed := routed + [Routed(f, d, routes)];
        assert routed[|before|].flow == f;
        assert forall i :: 0 <= i < |before| ==> routed[i] == before[i];
      }
    }
  }
}
