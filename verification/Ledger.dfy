/** The receiver's bookkeeping.  A flow keeps one counter per unfinished message and forgets the
    counter of a finished one.  `Balanced` says what that dictionary and the rx counter mean in
    terms of the set of shares delivered so far; the lemmas say that sending and receiving keep it. */
module Ledger {
  import opened Basics
  import opened Transport

  /** The delivered shares of one message. */
  ghost function Tally(delivered: set<Share>, s: nat): set<Share> {
    set sh | sh in delivered && sh.seqNum == s
  }

  /** The messages with k delivered shares. */
  ghost function Finished(v: View, delivered: set<Share>): set<nat>
  {
    set s | s in Below(v.sent) && |Tally(delivered, s)| == v.spec.k
  }

  ghost predicate Balanced(v: View, delivered: set<Share>, received: map<nat, nat>, rx: nat)
    requires v.Valid()
  {
    && (forall sh :: sh in delivered ==> v.Created(sh))
    && (forall s: nat :: s in received <==> s < v.sent && |Tally(delivered, s)| < v.spec.k)
    && (forall s: nat :: s in received ==> received[s] == |Tally(delivered, s)|)
    && rx == |Finished(v, delivered)|
  }

  /** A message never has more than k delivered shares, and has k exactly when all its shares
      have been delivered. */
  lemma TallyBound(v: View, delivered: set<Share>, s: nat)
    requires v.Valid() && s < v.sent
    requires forall sh :: sh in delivered ==> v.Created(sh)
    ensures |Tally(delivered, s)| <= v.spec.k
    ensures |Tally(delivered, s)| == v.spec.k <==> v.MessageShares(s) <= delivered
  {
    var mine := v.MessageShares(s);
    forall sh | sh in Tally(delivered, s) ensures sh in mine {
      assert sh == v.ShareOf(s, sh.shareNum);
    }
    CardFirst(v, s, v.spec.k);
    CardSubset(Tally(delivered, s), mine);
    assert mine <= delivered ==> Tally(delivered, s) == mine;
  }

  /** A share that has not been delivered yet still has its counter: the lookup on delivery
      never misses. */
  lemma CounterIsPresent(v: View, delivered: set<Share>, received: map<nat, nat>, rx: nat, sh: Share)
    requires v.Valid() && Balanced(v, delivered, received, rx)
    requires v.Created(sh) && sh !in delivered
    ensures sh.seqNum in received
  {
    TallyBound(v, delivered, sh.seqNum);
    assert sh == v.ShareOf(sh.seqNum, sh.shareNum) && sh in v.MessageShares(sh.seqNum);
  }

  /** Sending opens a zero counter. */
  lemma SendKeepsBalance(v: View, delivered: set<Share>, received: map<nat, nat>, rx: nat)
    requires v.Valid() && v.sent < |v.history| && Balanced(v, delivered, received, rx)
    ensures v.(sent := v.sent + 1).Valid()
    ensures Balanced(v.(sent := v.sent + 1), delivered, received[v.sent := 0], rx)
  {
    hide FlowSpec.Valid;
    hide Tally;
    hide Finished;
    NothingOfNext(v, delivered);
    FinishedStays(v, delivered);
  }

  /** Nothing of the next message has been delivered. */
  lemma NothingOfNext(v: View, delivered: set<Share>)
    requires v.Valid() && forall sh :: sh in delivered ==> v.Created(sh)
    ensures |Tally(delivered, v.sent)| == 0 < v.spec.k
  {
    assert Tally(delivered, v.sent) == {};
  }

  lemma FinishedStays(v: View, delivered: set<Share>)
    requires v.Valid() && forall sh :: sh in delivered ==> v.Created(sh)
    ensures Finished(v.(sent := v.sent + 1), delivered) == Finished(v, delivered)
  {
    hide Tally;
    NothingOfNext(v, delivered);
  }

  /** Delivering one more share changes the tally of its own message only. */
  lemma TallyGrows(delivered: set<Share>, sh: Share, z: nat)
    requires sh !in delivered
    ensures |Tally(delivered + {sh}, z)| == |Tally(delivered, z)| + (if z == sh.seqNum then 1 else 0)
  {
    if z == sh.seqNum {
      assert Tally(delivered + {sh}, z) == Tally(delivered, z) + {sh};
    } else {
      assert Tally(delivered + {sh}, z) == Tally(delivered, z);
    }
  }

  lemma FinishedGrows(v: View, delivered: set<Share>, sh: Share)
    requires v.Valid() && v.Created(sh) && sh !in delivered
    requires |Tally(delivered, sh.seqNum)| < v.spec.k
    ensures |Finished(v, delivered + {sh})| == |Finished(v, delivered)| +
              (if |Tally(delivered, sh.seqNum)| + 1 == v.spec.k then 1 else 0)
  {
    var s, now := sh.seqNum, delivered + {sh};
    forall z: nat ensures |Tally(now, z)| == |Tally(delivered, z)| + (if z == s then 1 else 0) {
      TallyGrows(delivered, sh, z);
    }
    if |Tally(delivered, s)| + 1 == v.spec.k {
      assert Finished(v, now) == Finished(v, delivered) + {s};
    } else {
      assert Finished(v, now) == Finished(v, delivered);
    }
  }

  /** Receiving counts the share, and closes the counter when it is the k-th. */
  lemma ReceiveKeepsBalance(v: View, delivered: set<Share>, received: map<nat, nat>, rx: nat, sh: Share)
    requires v.Valid() && Balanced(v, delivered, received, rx)
    requires v.Created(sh) && sh !in delivered && sh.seqNum in received
    ensures received[sh.seqNum] + 1 == v.spec.k ==>
              Balanced(v, delivered + {sh}, received - {sh.seqNum}, rx + 1)
    ensures received[sh.seqNum] + 1 != v.spec.k ==>
              Balanced(v, delivered + {sh}, received[sh.seqNum := received[sh.seqNum] + 1], rx)
  {
    var s, now := sh.seqNum, delivered + {sh};
    forall z: nat ensures |Tally(now, z)| == |Tally(delivered, z)| + (if z == s then 1 else 0) {
      TallyGrows(delivered, sh, z);
    }
    FinishedGrows(v, delivered, sh);
  }

  /** messages_tx == messages_rx + number of open counters, and every open counter is below k. */
  lemma MessagesAddUp(v: View, delivered: set<Share>, received: map<nat, nat>, rx: nat)
    requires v.Valid() && Balanced(v, delivered, received, rx)
    ensures v.sent == rx + |received|
    ensures forall s :: s in received ==> 0 <= received[s] < v.spec.k
  {
    var open, done := received.Keys, Finished(v, delivered);
    forall s: nat ensures s in open + done <==> s in Below(v.sent) {
      if s < v.sent {
        TallyBound(v, delivered, s);
      }
    }
    CardSplit(open, done, Below(v.sent));
  }

  lemma CardSplit(a: set<nat>, b: set<nat>, whole: set<nat>)
    requires a !! b && forall s: nat :: s in a + b <==> s in whole
    ensures |a| + |b| == |whole|
  {
    assert a + b == whole;
  }

  /** When the delivered shares are the ones whose travel time is over, the finished messages
      are the completed ones. */
  lemma FinishedIsCompleted(v: View, t: nat)
    requires v.Valid()
    ensures Finished(v, v.Delivered(t)) == v.Completed(t)
  {
    forall s | s in Below(v.sent) ensures s in Finished(v, v.Delivered(t)) <==> s in v.Completed(t) {
      forall sh | sh in v.Delivered(t) ensures v.Created(sh) {
        SharesAreCreated(v, sh);
      }
      TallyBound(v, v.Delivered(t), s);
    }
  }

  lemma RxIsFinished(v: View, delivered: set<Share>, received: map<nat, nat>, rx: nat)
    requires v.Valid() && Balanced(v, delivered, received, rx)
    ensures rx == |Finished(v, delivered)|
  {
  }

  /** The open counters of the messages below n, added up. */
  ghost function OpenSum(received: map<nat, nat>, n: nat): nat {
    if n == 0 then 0 else OpenSum(received, n - 1) + if n - 1 in received then received[n - 1] else 0
  }

  ghost function DeliveredBelow(delivered: set<Share>, n: nat): set<Share> {
    set sh | sh in delivered && sh.seqNum < n
  }

  ghost function FinishedBelow(v: View, delivered: set<Share>, n: nat): set<nat> {
    set s | s in Below(n) && |Tally(delivered, s)| == v.spec.k
  }

  lemma OneMoreMessage(v: View, delivered: set<Share>, n: nat)
    ensures |DeliveredBelow(delivered, n + 1)| == |DeliveredBelow(delivered, n)| + |Tally(delivered, n)|
    ensures |FinishedBelow(v, delivered, n + 1)| == |FinishedBelow(v, delivered, n)| +
              if |Tally(delivered, n)| == v.spec.k then 1 else 0
  {
    assert DeliveredBelow(delivered, n + 1) == DeliveredBelow(delivered, n) + Tally(delivered, n);
    CardUnion(DeliveredBelow(delivered, n), Tally(delivered, n));
    OneMoreFinished(v, delivered, n);
    hide FinishedBelow;
  }

  lemma OneMoreFinished(v: View, delivered: set<Share>, n: nat)
    ensures |FinishedBelow(v, delivered, n + 1)| == |FinishedBelow(v, delivered, n)| +
              if |Tally(delivered, n)| == v.spec.k then 1 else 0
  {
    hide Tally;
    var more := if |Tally(delivered, n)| == v.spec.k then {n} else {};
    assert FinishedBelow(v, delivered, n + 1) == FinishedBelow(v, delivered, n) + more;
    CardUnion(FinishedBelow(v, delivered, n), more);
  }

  lemma {:induction false} CountBelow(v: View, delivered: set<Share>, received: map<nat, nat>, rx: nat, n: nat)
    requires v.Valid() && Balanced(v, delivered, received, rx) && n <= v.sent
    ensures |DeliveredBelow(delivered, n)| == v.spec.k * |FinishedBelow(v, delivered, n)| + OpenSum(received, n)
  {
    hide View.Valid;
    hide Balanced;
    hide Tally;
    hide FinishedBelow;
    hide DeliveredBelow;
    if n == 0 {
      NothingBelow(v, delivered);
    } else {
      CountBelow(v, delivered, received, rx, n - 1);
      OneMoreMessage(v, delivered, n - 1);
      OpenOrFinished(v, delivered, received, rx, n - 1);
      Distribute(v.spec.k, |FinishedBelow(v, delivered, n - 1)| + 1, 1);
    }
  }

  lemma OpenOrFinished(v: View, delivered: set<Share>, received: map<nat, nat>, rx: nat, s: nat)
    requires v.Valid() && Balanced(v, delivered, received, rx) && s < v.sent
    ensures if s in received then received[s] == |Tally(delivered, s)| < v.spec.k else |Tally(delivered, s)| == v.spec.k
  {
    hide FlowSpec.Valid;
    TallyBound(v, delivered, s);
  }

  lemma NothingBelow(v: View, delivered: set<Share>)
    ensures DeliveredBelow(delivered, 0) == {} && FinishedBelow(v, delivered, 0) == {}
  {
  }

  /** The counters account for every delivered share: k for each message received, and the open counters. */
  lemma DeliveredIsCounted(v: View, delivered: set<Share>, received: map<nat, nat>, rx: nat)
    requires v.Valid() && Balanced(v, delivered, received, rx)
    ensures |delivered| == v.spec.k * rx + OpenSum(received, v.sent)
  {
    CountBelow(v, delivered, received, rx, v.sent);
    assert DeliveredBelow(delivered, v.sent) == delivered;
    assert FinishedBelow(v, delivered, v.sent) == Finished(v, delivered);
  }
}
