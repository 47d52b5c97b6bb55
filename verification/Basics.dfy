/** Vocabulary shared by the whole model: node identifiers, paths, sampling without
    replacement, and the few counting facts the theorems rest on. */
module Basics {

  /** Node identifiers.  The simulator reserves -1 for "no next hop", so real identifiers
      are never negative. */
  type NodeId = nat

  type Path = seq<NodeId>

  datatype Option<+T> = None | Some(value: T)

  predicate Distinct<T(==)>(s: seq<T>) {
    forall i, j :: 0 <= i < j < |s| ==> s[i] != s[j]
  }

  /** Node a of path i is an interior node, and it is also node b of path j. */
  ghost predicate Crosses(paths: seq<Path>, i: nat, a: nat, j: nat, b: nat) {
    i < |paths| && j < |paths| && 0 < a < |paths[i]| - 1 && b < |paths[j]| && paths[i][a] == paths[j][b]
  }

  /** No interior node belongs to two paths. */
  ghost predicate ShareNoInterior(paths: seq<Path>) {
    forall i, a, j, b :: Crosses(paths, i, a, j, b) ==> i == j
  }

  /** c is an ordered sample, without replacement, of k of the indices 0..n-1. */
  predicate IsChoice(c: seq<nat>, n: nat, k: nat) {
    && |c| == k
    && Distinct(c)
    && forall i :: 0 <= i < k ==> c[i] < n
  }

  /** numpy's `random.choice(range(n), k, replace=False)`: callers learn only that the result is
      some sample, so everything proved of them holds for every random outcome. */
  method ChooseDistinct(n: nat, k: nat) returns (c: seq<nat>)
    requires k <= n
    ensures IsChoice(c, n, k)
  {
    c := seq(k, i => i);
  }

  function Members<T>(s: seq<T>): set<T> {
    set x | x in s
  }

  function Repeat<T>(x: T, n: nat): (xs: seq<T>)
    ensures |xs| == n && forall i :: 0 <= i < n ==> xs[i] == x
  {
    seq(n, i => x)
  }

  /** The indices 0..n-1 as a set. */
  function Below(n: nat): (b: set<nat>)
    ensures forall i: nat :: i in b <==> i < n
    ensures |b| == n
  {
    if n == 0 then {} else Below(n - 1) + {n - 1}
  }

  // ----- counting -----

  lemma {:induction false} CardSubset<T>(a: set<T>, b: set<T>)
    requires a <= b
    ensures |a| <= |b|
    ensures |a| == |b| ==> a == b
  {
    assert b == a + (b - a);
    assert |b| == |a| + |b - a|;
  }

  lemma CardUnion<T>(a: set<T>, b: set<T>)
    requires a !! b
    ensures |a + b| == |a| + |b|
  {
  }

  lemma CardAtMostOne<T>(s: set<T>)
    requires forall a, b :: a in s && b in s ==> a == b
    ensures |s| <= 1
  {
    if s != {} {
      var a :| a in s;
      assert s == {a};
    }
  }

  lemma {:induction false} CardMembers<T>(s: seq<T>)
    requires Distinct(s)
    ensures |Members(s)| == |s|
  {
    if s == [] {
      assert Members(s) == {};
    } else {
      var n := |s| - 1;
      CardMembers(s[..n]);
      assert Members(s) == Members(s[..n]) + {s[n]};
    }
  }

  lemma MembersGrow<T>(s: seq<T>, n: nat)
    requires n < |s|
    ensures Members(s[..n + 1]) == Members(s[..n]) + {s[n]}
  {
    assert s[..n + 1] == s[..n] + [s[n]];
  }

  lemma DistinctConcat<T>(a: seq<T>, b: seq<T>)
    requires Distinct(a) && Distinct(b) && forall x :: x in a ==> x !in b
    ensures Distinct(a + b)
  {
    forall i, j | 0 <= i < j < |a + b| ensures (a + b)[i] != (a + b)[j] {
      if i < |a| <= j {
        assert (a + b)[i] in a && (a + b)[j] in b;
      }
    }
  }

  /** A duplicate-free listing of a finite set, in an arbitrary order. */
  method Enumerate<T(==)>(s: set<T>) returns (r: seq<T>)
    ensures Members(r) == s && Distinct(r) && |r| == |s|
  {
    r := [];
    var rest := s;
    while rest != {}
      invariant Members(r) + rest == s && Members(r) !! rest && Distinct(r)
      invariant |r| + |rest| == |s|
      decreases rest
    {
      var x :| x in rest;
      assert Members(r + [x]) == Members(r) + {x};
      r, rest := r + [x], rest - {x};
    }
  }
}
