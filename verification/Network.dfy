/** The mutable objects of the simulator: nodes holding shares, and flows. */
module Network {
  import opened Basics
  import opened Transport
  import opened Ledger

  class Node {
    const id: NodeId
    var resident: set<Share>

    constructor (id: NodeId)
      ensures this.id == id && resident == {}
    {
      this.id := id;
      resident := {};
    }

    /** The shares passing through: resident here, neither starting nor ending here. */
    method VulnerableShares() returns (r: seq<Share>)
      ensures Distinct(r)
      ensures forall sh :: sh in r <==> sh in resident && sh.source != id && sh.sink != id
    {
      var all := Enumerate(resident);
      assert forall sh :: sh in all <==> sh in Members(all);
      r := [];
      for i := 0 to |all|
        invariant Distinct(r)
        invariant forall sh :: sh in r <==> sh in all[..i] && sh.source != id && sh.sink != id
      {
        if all[i].source != id && all[i].sink != id {
          r := r + [all[i]];
        }
        assert all[..i + 1] == all[..i] + [all[i]];
      }
      assert all[..|all|] == all;
    }

    method ReceiveShare(share: Share)
      modifies this
      ensures resident == old(resident) + {share}
    {
      resident := resident + {share};
    }

    method ClearResidentPackets()
      modifies this
      ensures resident == {}
    {
      resident := {};
    }
  }

  class Flow {
    const spec: FlowSpec
    var active: seq<nat>
    var seqNum: nat
    var received: map<nat, nat>
    var messagesTx: nat
    var messagesRx: nat
    /** The paths sampled for each message, ending with the ones now active. */
    ghost var history: seq<seq<nat>>
    ghost var delivered: set<Share>

    ghost function View(): View
      reads this
    {
      Transport.View(spec, history, seqNum)
    }

    ghost predicate Valid()
      reads this
    {
      && View().Valid()
      && |history| > 0 && history[|history| - 1] == active
      && messagesTx == seqNum
      && Balanced(View(), delivered, received, messagesRx)
    }

    lemma ViewIsValid()
      requires Valid()
      ensures View().Valid()
    {
    }

    /** The flow is in the state described by the view and the set of delivered shares. */
    ghost predicate Tracked(v: View, d: set<Share>)
      reads this
      ensures Tracked(v, d) ==> v.spec == spec
    {
      Valid() && View() == v && delivered == d
    }

    /** A flow on the given paths, with its first sample of k of them. */
    constructor (spec: FlowSpec)
      requires spec.Valid()
      ensures Valid() && this.spec == spec
      ensures seqNum == 0 && |history| == 1 && delivered == {}
    {
      this.spec := spec;
      seqNum, received, messagesTx, messagesRx := 0, map[], 0, 0;
      delivered := {};
      var choice := ChooseDistinct(|spec.paths|, spec.k);
      active := choice;
      history := [choice];
      new;
      assert Finished(View(), delivered) == {};
    }

    /** The node after `here` on the share's own path, or -1 when `here` (at index i) is the last. */
    method NextHop(share: Share, here: Node) returns (next: int, ghost i: nat)
      requires spec.Valid() && share.pathIdx < |spec.paths| && here.id in spec.paths[share.pathIdx]
      ensures var route := spec.paths[share.pathIdx];
              && i < |route| && route[i] == here.id
              && next == if i + 1 == |route| then -1 else route[i + 1]
    {
      var route := spec.paths[share.pathIdx];
      var j := 0;
      while route[j] != here.id
        invariant 0 <= j < |route|
        invariant here.id !in route[..j]
        decreases |route| - j
      {
        j := j + 1;
      }
      i := j;
      next := if j + 1 == |route| then -1 else route[j + 1];
    }

    /** One share of a fresh message for every active path. */
    method CreateShares() returns (shares: seq<Share>)
      requires Valid() && |history| == seqNum + 1
      modifies this
      ensures Valid() && history == old(history) && delivered == old(delivered) && seqNum == old(seqNum) + 1
      ensures |shares| == spec.k
      ensures forall j :: 0 <= j < |shares| ==> shares[j] == View().ShareOf(old(seqNum), j)
    {
      hide Balanced;
      hide FlowSpec.Valid;
      SendKeepsBalance(View(), delivered, received, messagesRx);
      messagesTx := messagesTx + 1;
      var s := seqNum;
      seqNum := seqNum + 1;
      received := received[s := 0];
      var paths := active;
      shares := seq(|paths|, j requires 0 <= j < |paths| => Share(spec.id, s, j, paths[j], spec.source, spec.sink));
    }

    /** Counts a delivered share; the counter it needs is always there. */
    method ReceiveShare(share: Share)
      requires Valid()
      requires View().Created(share) && share !in delivered
      modifies this
      ensures Valid() && View() == old(View()) && active == old(active)
      ensures delivered == old(delivered) + {share}
    {
      hide Balanced;
      hide FlowSpec.Valid;
      ghost var v := View();
      var s, open := share.seqNum, received;
      CounterIsPresent(v, delivered, open, messagesRx, share);
      ReceiveKeepsBalance(v, delivered, open, messagesRx, share);
      delivered := delivered + {share};
      received := open[s := open[s] + 1];
      if received[s] == spec.k {
        messagesRx := messagesRx + 1;
        received := received - {s};
        assert received == open - {s};
      }
    }

    /** Samples the paths of the next message. */
    method Hop()
      requires Valid() && |history| == seqNum
      modifies this
      ensures Valid() && seqNum == old(seqNum) && delivered == old(delivered)
      ensures history == old(history) + [active]
    {
      ghost var before := View();
      active := ChooseDistinct(|spec.paths|, spec.k);
      history := history + [active];
      assert forall sh :: sh in delivered ==> before.Created(sh);
      assert forall sh :: before.Created(sh) ==> View().Created(sh);
      assert Finished(View(), delivered) == Finished(before, delivered);
    }
  }
}
