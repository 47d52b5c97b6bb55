/** Putting captured shares back together: sort by sequence number, group equal numbers, keep the groups
    with k different share numbers. */
module Reconstruction {
  import opened Basics
  import opened Transport
  import opened Attack

  predicate SortedBySeqNum(r: seq<Share>) {
    forall i, j :: 0 <= i < j < |r| ==> r[i].seqNum <= r[j].seqNum
  }

  function Insert(sh: Share, r: seq<Share>): (z: seq<Share>)
    ensures multiset(z) == multiset(r) + multiset{sh}
  {
    if r == [] || sh.seqNum <= r[0].seqNum then
      [sh] + r
    else
      assert r == [r[0]] + r[1..];
      [r[0]] + Insert(sh, r[1..])
  }

  lemma {:induction false} InsertSorts(sh: Share, r: seq<Share>)
    requires SortedBySeqNum(r)
    ensures SortedBySeqNum(Insert(sh, r))
  {
    if r != [] && sh.seqNum > r[0].seqNum {
      var rest := Insert(sh, r[1..]);
      InsertSorts(sh, r[1..]);
      forall x | x in rest ensures r[0].seqNum <= x.seqNum {
        assert x in multiset(r[1..]) + multiset{sh};
        assert x in r[1..] || x == sh;
      }
      assert forall i :: 1 <= i < |Insert(sh, r)| ==> Insert(sh, r)[i] in rest;
    }
  }

  /** Python's sorted(captured, key = seq_num). */
  function Sort(captured: seq<Share>): (z: seq<Share>)
    ensures multiset(z) == multiset(captured)
  {
    if captured == [] then []
    else
      assert captured == [captured[0]] + captured[1..];
      Insert(captured[0], Sort(captured[1..]))
  }

  lemma {:induction false} SortSorts(captured: seq<Share>)
    ensures SortedBySeqNum(Sort(captured))
    ensures Members(Sort(captured)) == Members(captured)
  {
    if captured != [] {
      SortSorts(captured[1..]);
      InsertSorts(captured[0], Sort(captured[1..]));
    }
    forall x ensures x in Members(Sort(captured)) <==> x in Members(captured) {
      assert x in Sort(captured) <==> x in multiset(Sort(captured));
      assert x in captured <==> x in multiset(captured);
    }
  }

  predicate Increasing(r: seq<nat>) {
    forall i, j :: 0 <= i < j < |r| ==> r[i] < r[j]
  }

  /** Some share of message s is in r. */
  predicate Mentions(r: seq<Share>, s: nat) {
    exists i :: 0 <= i < |r| && r[i].seqNum == s
  }

  /** Sort and groupby yield, in strictly increasing order, exactly the messages of which k
      different shares were captured. */
  method Reconstruct(captured: seq<Share>, k: nat) returns (messages: seq<nat>)
    ensures Increasing(messages)
    ensures forall s :: s in messages <==> Recovers(k, Members(captured), s)
  {
    hide Mentions;
    hide ShareNums;
    hide SortedBySeqNum;
    hide Sort;
    hide Members;
    var r := Sort(captured);
    SortSorts(captured);
    messages := [];
    var i := 0;
    NothingMentioned(r);
    while i < |r|
      invariant 0 <= i <= |r|
      invariant 0 < i < |r| ==> r[i - 1].seqNum < r[i].seqNum
      invariant Increasing(messages)
      invariant forall s :: s in messages <==> Mentions(r[..i], s) && |ShareNums(Members(r), s)| == k
      decreases |r| - i
    {
      var s := r[i].seqNum;
      var j, nums := GroupAt(r, i);
      if |nums| == k {
        forall a | 0 <= a < |messages| ensures messages[a] < s {
          assert messages[a] in messages;
          MentionedEarlier(r, i, messages[a]);
        }
        messages := messages + [s];
      }
      forall z ensures Mentions(r[..j], z) <==> Mentions(r[..i], z) || z == s {
        MentionsGroup(r, i, j, z);
      }
      i := j;
    }
    assert r[..|r|] == r;
    forall s ensures Mentions(r, s) <==> ShareNums(Members(r), s) != {} {
      MentionedHasShares(r, s);
    }
  }

  lemma NothingMentioned(r: seq<Share>)
    ensures forall s :: !Mentions(r[..0], s)
  {
  }

  lemma MentionedEarlier(r: seq<Share>, i: nat, z: nat)
    requires SortedBySeqNum(r) && i < |r| && (i > 0 ==> r[i - 1].seqNum < r[i].seqNum) && Mentions(r[..i], z)
    ensures z < r[i].seqNum
  {
    var a :| 0 <= a < |r[..i]| && r[..i][a].seqNum == z;
    assert r[a].seqNum <= r[i - 1].seqNum;
  }

  lemma MentionedHasShares(r: seq<Share>, s: nat)
    ensures Mentions(r, s) <==> ShareNums(Members(r), s) != {}
  {
    if a :| 0 <= a < |r| && r[a].seqNum == s {
      assert r[a] in Members(r);
      assert r[a].shareNum in ShareNums(Members(r), s);
    }
    if ShareNums(Members(r), s) != {} {
      var n :| n in ShareNums(Members(r), s);
    }
  }

  /** The end of the group starting at i, and its set of share numbers. */
  method GroupAt(r: seq<Share>, i: nat) returns (j: nat, nums: set<nat>)
    requires SortedBySeqNum(r) && i < |r| && (i > 0 ==> r[i - 1].seqNum < r[i].seqNum)
    ensures i < j <= |r| && (j < |r| ==> r[j - 1].seqNum < r[j].seqNum)
    ensures forall a :: i <= a < j ==> r[a].seqNum == r[i].seqNum
    ensures nums == ShareNums(Members(r), r[i].seqNum)
  {
    var s := r[i].seqNum;
    j, nums := i, {};
    while j < |r| && r[j].seqNum == s
      invariant i <= j <= |r|
      invariant forall a :: i <= a < j ==> r[a].seqNum == s
      invariant forall n :: n in nums <==> exists a :: i <= a < j && r[a].shareNum == n
    {
      nums := nums + {r[j].shareNum};
      j := j + 1;
    }
    forall n ensures n in nums <==> n in ShareNums(Members(r), s) {
      if n in nums {
        var a :| i <= a < j && r[a].shareNum == n;
        assert r[a] in Members(r) && r[a].seqNum == s;
      }
      if n in ShareNums(Members(r), s) {
        var sh :| sh in Members(r) && sh.seqNum == s && sh.shareNum == n;
        var a :| 0 <= a < |r| && r[a] == sh;
        assert i <= a < j;
      }
    }
  }

  lemma MentionsGroup(r: seq<Share>, i: nat, j: nat, z: nat)
    requires i < j <= |r| && forall a :: i <= a < j ==> r[a].seqNum == r[i].seqNum
    ensures Mentions(r[..j], z) <==> Mentions(r[..i], z) || z == r[i].seqNum
  {
    if a :| 0 <= a < |r[..j]| && r[..j][a].seqNum == z {
      assert a < i ==> r[..i][a].seqNum == z;
    }
    if a :| 0 <= a < |r[..i]| && r[..i][a].seqNum == z {
      assert r[..j][a].seqNum == z;
    }
    assert r[..j][i].seqNum == r[i].seqNum;
  }
}
