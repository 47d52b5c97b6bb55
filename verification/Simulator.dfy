/** The simulation step.  Loops over dictionaries and sets pick an arbitrary remaining element, so the
    contracts hold for every iteration order.  `Valid` is the closed form: after ticks - 1 steps every
    share is where Transport says it is. */
module Simulator {
  import opened Basics
  import opened Transport
  import opened Ledger
  import opened Network
  import opened Attack
  import opened Attackers

  // ----- how the phases of a step act on the closed form -----

  /** Sending a message adds its shares at the source. */
  lemma SendAddsShares(w: World, w': World, id: nat, n: nat, sh: Share, x: NodeId)
    requires ValidWorld(w) && id in w && w[id].sent == n < |w[id].history|
    requires w' == w[id := w[id].(sent := n + 1)]
    ensures ValidWorld(w')
    ensures PresentIn(w', n, sh, x) <==>
            PresentIn(w, n, sh, x) || (x == w[id].spec.source && sh in w'[id].MessageShares(n))
  {
    var v, v' := w[id], w'[id];
    if sh.flowId == id && v'.Created(sh) {
      assert v'.spec.IsRoute(v'.RouteOf(sh));
      if sh.seqNum == n {
        assert sh == v'.ShareOf(n, sh.shareNum);
      }
    }
    if sh in v'.MessageShares(n) {
      var j :| 0 <= j < v.spec.k && sh == v'.ShareOf(n, j);
      assert v'.Created(sh) && v'.spec.IsRoute(v'.RouteOf(sh));
    }
  }

  /** ... and delivers nothing. */
  lemma SendDeliversNothing(w: World, w': World, n: nat, sh: Share)
    requires ValidWorld(w) && ValidWorld(w') && w.Keys == w'.Keys
    requires forall id :: id in w ==> w[id].sent == n && w'[id] == w[id].(sent := n + 1)
    ensures ArrivedIn(w', n, sh) <==> ArrivedIn(w, n, sh)
  {
    if ArrivedIn(w', n, sh) {
      var v := w'[sh.flowId];
      assert v.spec.IsRoute(v.RouteOf(sh));
    }
  }

  lemma SharesOfMessage(v: View, s: nat, shares: seq<Share>)
    requires v.Valid() && s < v.sent && |shares| == v.spec.k
    requires forall j :: 0 <= j < |shares| ==> shares[j] == v.ShareOf(s, j)
    ensures Members(shares) == v.MessageShares(s)
  {
  }

  /** One move takes a share to the next node of its own path, or out of the network. */
  lemma MoveIsNextHop(v: View, n: nat, sh: Share, x: NodeId)
    requires v.Valid() && v.Present(n, sh, x)
    ensures v.Created(sh)
    ensures var p, i := v.spec.paths[sh.pathIdx], n - sh.seqNum;
            && v.spec.IsRoute(p) && 0 <= i < |p| && p[i] == x && x in p
            && (v.Arrived(n + 1, sh) <==> i + 1 == |p|)
            && (i + 1 < |p| ==> v.Present(n + 1, sh, p[i + 1]))
  {
    assert v.spec.IsRoute(v.RouteOf(sh));
  }

  /** A share that has arrived after n + 1 moves either had arrived or was at its sink. */
  lemma ArrivalIsMove(w: World, n: nat, sh: Share)
    requires ValidWorld(w) && ArrivedIn(w, n + 1, sh) && !ArrivedIn(w, n, sh)
    requires w[sh.flowId].sent <= n + 1
    ensures w[sh.flowId].InNetwork(n, sh)
  {
    var v := w[sh.flowId];
    assert v.spec.IsRoute(v.RouteOf(sh));
  }

  /** A share present after n + 1 moves was present after n. */
  lemma PresenceIsMove(w: World, n: nat, sh: Share, y: NodeId)
    requires ValidWorld(w) && PresentIn(w, n + 1, sh, y) && w[sh.flowId].sent <= n + 1
    ensures w[sh.flowId].InNetwork(n, sh)
  {
  }

  // ----- the state of a simulation as values -----

  /** Node contents, and delivered shares of each flow. */
  type Contents = map<NodeId, set<Share>>
  type Deliveries = map<nat, set<Share>>

  /** All flows have sent `sent` messages and have sampled paths for `planned` of them. */
  ghost predicate Uniform(w: World, sent: nat, planned: nat)
    ensures Uniform(w, sent, planned) ==> ValidWorld(w)
  {
    ValidWorld(w) && forall id :: id in w ==> w[id].sent == sent && |w[id].history| == planned
  }

  /** Every node holds exactly the shares that are there after t moves. */
  ghost predicate Placed(w: World, contents: Contents, t: nat)
    requires ValidWorld(w)
  {
    forall x, sh :: x in contents ==> (sh in contents[x] <==> PresentIn(w, t, sh, x))
  }

  /** Every flow has received exactly its shares that have arrived after t moves. */
  ghost predicate Received(w: World, arrived: Deliveries, t: nat)
    requires ValidWorld(w)
  {
    forall id, sh :: id in arrived ==> (sh in arrived[id] <==> sh.flowId == id && ArrivedIn(w, t, sh))
  }

  lemma NothingSent(w: World, contents: Contents, arrived: Deliveries)
    requires ValidWorld(w) && forall id :: id in w ==> w[id].sent == 0
    requires forall x :: x in contents ==> contents[x] == {}
    requires forall id :: id in arrived ==> arrived[id] == {}
    ensures Placed(w, contents, 0) && Received(w, arrived, 0)
  {
  }

  /** The flows outside `rest` have sent their next message. */
  ghost function Sending(w: World, rest: set<nat>): World {
    map id | id in w :: if id in rest then w[id] else w[id].(sent := w[id].sent + 1)
  }

  /** Phase 1 with the flows in `rest` still to send: the views and node contents are as if the others
      had sent message n. */
  ghost predicate Injecting(w: World, n: nat, rest: set<nat>, cur: World, contents: Contents) {
    && ValidWorld(cur) && cur == Sending(w, rest)
    && Placed(cur, contents, n)
  }

  /** The view of a flow after sending, and the contents of a node after receiving a message's shares. */
  ghost function AfterSend(v: View): View {
    v.(sent := v.sent + 1)
  }

  lemma InjectingStep(w: World, n: nat, rest: set<nat>, cur: World, contents: Contents, id: nat)
    requires Uniform(w, n, n + 1) && Injecting(w, n, rest, cur, contents)
    requires id in rest && id in w && id in cur && cur[id].spec.source in contents
    ensures cur[id] == w[id] && AfterSend(w[id]).Valid()
    ensures w[id].sent == n && |w[id].history| == n + 1
    ensures var s := w[id].spec.source;
            Injecting(w, n, rest - {id}, cur[id := AfterSend(w[id])],
                      contents[s := contents[s] + AfterSend(w[id]).MessageShares(n)])
  {
    var w' := cur[id := AfterSend(w[id])];
    var s := w[id].spec.source;
    var contents' := contents[s := contents[s] + AfterSend(w[id]).MessageShares(n)];
    assert w' == Sending(w, rest - {id});
    forall x, sh | x in contents' ensures sh in contents'[x] <==> PresentIn(w', n, sh, x) {
      SendAddsShares(cur, w', id, n, sh, x);
    }
  }

  lemma InjectingStarts(w: World, n: nat, contents: Contents)
    requires Uniform(w, n, n + 1) && Placed(w, contents, n)
    ensures Injecting(w, n, w.Keys, w, contents)
  {
    assert w == Sending(w, w.Keys);
  }

  lemma InjectingEnds(w: World, n: nat, cur: World, contents: Contents)
    requires Uniform(w, n, n + 1) && Injecting(w, n, {}, cur, contents)
    ensures cur == Sending(w, {}) && Uniform(cur, n + 1, n + 1) && Placed(cur, contents, n)
  {
  }

  lemma SendingDelivers(w: World, w1: World, n: nat, arrived: Deliveries)
    requires Uniform(w, n, n + 1) && Received(w, arrived, n) && w1 == Sending(w, {}) && ValidWorld(w1)
    ensures Received(w1, arrived, n)
  {
    forall id, sh | id in arrived ensures sh in arrived[id] <==> sh.flowId == id && ArrivedIn(w1, n, sh) {
      SendDeliversNothing(w, w1, n, sh);
    }
  }

  // ----- one flow of the world -----

  ghost function SharesOfFlow(shares: set<Share>, id: nat): set<Share> {
    set sh | sh in shares && sh.flowId == id
  }

  lemma DeliveredShares(w: World, arrived: Deliveries, t: nat, id: nat)
    requires ValidWorld(w) && Received(w, arrived, t) && id in w && id in arrived
    ensures arrived[id] == w[id].Delivered(t)
  {
    var v := w[id];
    forall sh ensures sh in arrived[id] <==> sh in v.Delivered(t) {
      SharesAreCreated(v, sh);
    }
  }

  lemma ResidentShares(w: World, contents: Contents, t: nat, id: nat, x: NodeId)
    requires ValidWorld(w) && Placed(w, contents, t) && id in w && x in contents
    ensures SharesOfFlow(contents[x], id) == w[id].ResidentAt(t, x)
  {
    var v := w[id];
    forall sh ensures sh in SharesOfFlow(contents[x], id) <==> sh in v.ResidentAt(t, x) {
      SharesAreCreated(v, sh);
    }
  }

  lemma ConservationInside(w: World, t: nat, nodes: set<NodeId>, id: nat)
    requires ValidWorld(w) && PathsInside(w, nodes) && id in w && w[id].sent <= t + 1
    ensures Occupancy(w[id], t, nodes) + |w[id].Delivered(t)| == w[id].spec.k * w[id].sent
    ensures Occupancy(w[id], t, nodes) == |w[id].InFlight(t)|
  {
    Conservation(w[id], t, nodes);
  }

  // ----- phase 2: shares leave their nodes -----

  /** The shares to inject, by node. */
  type Moves = map<NodeId, set<Share>>

  function At(m: Moves, y: NodeId): set<Share> {
    if y in m then m[y] else {}
  }

  /** The shares in `moved` have been taken off their nodes: those at the end of their path have been
      delivered, the others wait to be injected at their next node. */
  ghost predicate Collecting(w: World, n: nat, moved: set<Share>, inject: Moves, arrived: Deliveries)
    requires ValidWorld(w)
  {
    && (forall y, sh :: sh in At(inject, y) <==> sh in moved && PresentIn(w, n + 1, sh, y))
    && (forall id, sh :: id in arrived ==>
          (sh in arrived[id] <==> sh.flowId == id && (ArrivedIn(w, n, sh) || (sh in moved && ArrivedIn(w, n + 1, sh)))))
  }

  /** Exactly the shares of the nodes outside `rest` have been moved. */
  ghost predicate MovedFrom(w: World, n: nat, rest: set<NodeId>, moved: set<Share>)
    requires ValidWorld(w)
  {
    forall sh :: sh in moved <==> sh.flowId in w && w[sh.flowId].InNetwork(n, sh) && w[sh.flowId].NodeAt(n, sh) !in rest
  }

  /** Delivering a share at the end of its path. */
  lemma DeliverStep(w: World, n: nat, moved: set<Share>, inject: Moves, arrived: Deliveries, sh: Share, x: NodeId)
    requires ValidWorld(w) && Collecting(w, n, moved, inject, arrived) && sh !in moved && arrived.Keys == w.Keys
    requires PresentIn(w, n, sh, x) && ArrivedIn(w, n + 1, sh)
    ensures sh !in arrived[sh.flowId]
    ensures Collecting(w, n, moved + {sh}, inject, arrived[sh.flowId := arrived[sh.flowId] + {sh}])
  {
    var t := n + 1;
    assert forall y :: !PresentIn(w, t, sh, y);
  }

  /** Queueing a share for its next node. */
  lemma QueueStep(
      w: World, n: nat, moved: set<Share>, inject: Moves, arrived: Deliveries, sh: Share, x: NodeId, y: NodeId)
    requires ValidWorld(w) && Collecting(w, n, moved, inject, arrived) && sh !in moved
    requires PresentIn(w, n, sh, x) && PresentIn(w, n + 1, sh, y)
    ensures Collecting(w, n, moved + {sh}, inject[y := At(inject, y) + {sh}], arrived)
  {
    var inject', t := inject[y := At(inject, y) + {sh}], n + 1;
    forall z, s ensures s in At(inject', z) <==> s in moved + {sh} && PresentIn(w, t, s, z) {
      assert s in At(inject, z) <==> s in moved && PresentIn(w, t, s, z);
      assert At(inject', z) == if z == y then At(inject, y) + {sh} else At(inject, z);
    }
    forall id, s | id in arrived
      ensures s in arrived[id] <==> s.flowId == id && (ArrivedIn(w, n, s) || (s in moved + {sh} && ArrivedIn(w, t, s)))
    {
      assert s == sh ==> !ArrivedIn(w, t, s);
    }
  }

  ghost predicate PathsInside(w: World, nodes: set<NodeId>) {
    forall id, q, a :: id in w && 0 <= q < |w[id].spec.paths| && 0 <= a < |w[id].spec.paths[q]|
      ==> w[id].spec.paths[q][a] in nodes
  }

  lemma CollectingStarts(w: World, n: nat, nodes: set<NodeId>, contents: Contents, arrived: Deliveries)
    requires ValidWorld(w) && Placed(w, contents, n) && Received(w, arrived, n) && contents.Keys == nodes
    requires PathsInside(w, nodes)
    ensures Collecting(w, n, {}, map[], arrived) && MovedFrom(w, n, nodes, {})
  {
  }

  /** What draining node x, one of the rest, has to move; and what is moved then. */
  lemma DrainStep(w: World, n: nat, contents: Contents, rest: set<NodeId>, moved: set<Share>, x: NodeId)
    requires ValidWorld(w) && Placed(w, contents, n) && MovedFrom(w, n, rest, moved) && x in rest && x in contents
    ensures contents[x] !! moved
    ensures forall sh :: sh in contents[x] ==> PresentIn(w, n, sh, x)
    ensures MovedFrom(w, n, rest - {x}, moved + contents[x])
  {
  }

  lemma CollectingEnds(w: World, n: nat, moved: set<Share>, inject: Moves, arrived: Deliveries)
    requires Uniform(w, n + 1, n + 1) && Collecting(w, n, moved, inject, arrived) && MovedFrom(w, n, {}, moved)
    ensures forall y, sh :: sh in At(inject, y) <==> PresentIn(w, n + 1, sh, y)
    ensures Received(w, arrived, n + 1)
  {
    forall y, sh ensures sh in At(inject, y) <==> PresentIn(w, n + 1, sh, y) {
      if PresentIn(w, n + 1, sh, y) {
        PresenceIsMove(w, n, sh, y);
      }
    }
    forall id, sh | id in arrived ensures sh in arrived[id] <==> sh.flowId == id && ArrivedIn(w, n + 1, sh) {
      if sh.flowId == id && ArrivedIn(w, n + 1, sh) && !ArrivedIn(w, n, sh) {
        ArrivalIsMove(w, n, sh);
      }
    }
  }

  // ----- phase 3: shares enter their next nodes -----

  /** The shares waiting for nodes outside `rest` have entered them. */
  ghost predicate Depositing(inject: Moves, rest: set<NodeId>, contents: Contents) {
    forall x :: x in contents ==> contents[x] == if x in rest then {} else At(inject, x)
  }

  lemma DepositStarts(inject: Moves, contents: Contents)
    requires forall x :: x in contents ==> contents[x] == {}
    ensures Depositing(inject, inject.Keys, contents)
  {
  }

  lemma DepositStep(w: World, n: nat, inject: Moves, rest: set<NodeId>, contents: Contents, y: NodeId)
    requires ValidWorld(w) && PathsInside(w, contents.Keys) && y in inject && y in rest
    requires Depositing(inject, rest, contents)
    requires forall y, sh :: sh in At(inject, y) <==> PresentIn(w, n, sh, y)
    ensures inject[y] != {} ==>
              y in contents && contents[y] == {} && Depositing(inject, rest - {y}, contents[y := inject[y]])
    ensures inject[y] == {} ==> Depositing(inject, rest - {y}, contents)
  {
    if inject[y] != {} {
      var sh :| sh in inject[y];
      assert sh in At(inject, y);
    }
  }

  lemma DepositEnds(w: World, n: nat, inject: Moves, contents: Contents)
    requires ValidWorld(w) && Depositing(inject, {}, contents)
    requires forall y, sh :: sh in At(inject, y) <==> PresentIn(w, n, sh, y)
    ensures Placed(w, contents, n)
  {
  }

  // ----- phase 4: flows sample new paths -----

  /** The flows outside `rest` have sampled the paths of their next message. */
  ghost predicate Hopping(w: World, rest: set<nat>, cur: World) {
    && ValidWorld(cur) && cur.Keys == w.Keys
    && forall id :: id in w ==> if id in rest then cur[id] == w[id] else HasHopped(w[id], cur[id])
  }

  ghost predicate HasHopped(v: View, v': View) {
    |v'.history| == |v.history| + 1 && v' == v.(history := v.history + [v'.history[|v.history|]])
  }

  lemma HoppingStarts(w: World)
    requires ValidWorld(w)
    ensures Hopping(w, w.Keys, w)
  {
  }

  lemma HoppingKeeps(w: World, rest: set<nat>, cur: World, id: nat)
    requires Hopping(w, rest, cur) && id in rest && id in w
    ensures id in cur && cur[id] == w[id]
  {
  }

  lemma HoppingStep(w: World, rest: set<nat>, cur: World, id: nat, v: View)
    requires Hopping(w, rest, cur) && id in rest && id in w && id in cur
    requires HasHopped(cur[id], v) && v.Valid()
    ensures Hopping(w, rest - {id}, cur[id := v])
  {
  }

  lemma HoppingEnds(w: World, n: nat, cur: World, contents: Contents, arrived: Deliveries)
    requires Uniform(w, n, n) && Hopping(w, {}, cur) && Placed(w, contents, n) && Received(w, arrived, n)
    ensures Uniform(cur, n, n + 1) && Placed(cur, contents, n) && Received(cur, arrived, n)
  {
    forall t, sh, x ensures PresentIn(cur, t, sh, x) <==> PresentIn(w, t, sh, x) {
      if sh.flowId in w {
        assert HasHopped(w[sh.flowId], cur[sh.flowId]);
      }
    }
    forall t, sh ensures ArrivedIn(cur, t, sh) <==> ArrivedIn(w, t, sh) {
      if sh.flowId in w {
        assert HasHopped(w[sh.flowId], cur[sh.flowId]);
      }
    }
  }

  lemma StepContinues(w: World, w1: World, w4: World, n: nat)
    requires Uniform(w, n, n + 1) && w1 == Sending(w, {}) && Hopping(w1, {}, w4)
    ensures Continues(w, w4, n)
  {
    forall id | id in w
      ensures w[id].spec == w4[id].spec && w[id].history <= w4[id].history && n <= w[id].sent <= w4[id].sent
    {
      assert HasHopped(w1[id], w4[id]);
    }
  }

  /** Different attackers, each having followed its strategy for n - 1 steps. */
  ghost predicate AttackersValid(attackers: seq<Attacker>, nodes: set<NodeId>, w: World, n: nat)
    reads attackers
  {
    && Distinct(attackers)
    && forall i :: 0 <= i < |attackers| ==> attackers[i].Valid(w, nodes) && attackers[i].since + |attackers[i].log| == n
  }

  /** The paths of the flows stay within the given nodes. */
  ghost predicate FlowsInside(flows: map<nat, Flow>, nodes: set<NodeId>) {
    forall id, q, a :: id in flows && 0 <= q < |flows[id].spec.paths| && 0 <= a < |flows[id].spec.paths[q]|
      ==> flows[id].spec.paths[q][a] in nodes
  }

  class Simulation {
    var ticks: nat
    const nodes: map<NodeId, Node>
    const flows: map<nat, Flow>
    var attackers: seq<Attacker>
    ghost var world: World
    ghost var contents: Contents
    ghost var arrived: Deliveries

    /** Dictionaries are keyed by identifier, and flows live in this network. */
    ghost predicate Wired() {
      && (forall x :: x in nodes ==> nodes[x].id == x)
      && (forall id :: id in flows ==> flows[id].spec.id == id && flows[id].spec.source in nodes)
      && FlowsInside(flows, nodes.Keys)
    }

    /** The objects are in the state described by the values. */
    ghost predicate Tracks(w: World, c: Contents, d: Deliveries)
      reads nodes.Values, flows.Values
    {
      FlowsTrack(w, d) && NodesHold(c)
    }

    ghost predicate FlowsTrack(w: World, d: Deliveries)
      reads flows.Values
    {
      w.Keys == d.Keys == flows.Keys && forall id :: id in flows ==> flows[id].Tracked(w[id], d[id])
    }

    ghost predicate NodesHold(c: Contents)
      reads nodes.Values
    {
      c.Keys == nodes.Keys && forall x :: x in nodes ==> nodes[x].resident == c[x]
    }

    /** The closed form n steps after the start. */
    ghost predicate InPlace(n: nat)
      reads this`world, this`contents, this`arrived, nodes.Values, flows.Values
    {
      && Wired() && Tracks(world, contents, arrived)
      && Uniform(world, n, n + 1) && Placed(world, contents, n) && Received(world, arrived, n)
    }

    /** After ticks - 1 steps every share is where the closed form says, and every attacker has
        followed its strategy for as many steps. */
    ghost predicate Valid()
      reads this, nodes.Values, flows.Values, attackers
    {
      && ticks >= 1
      && InPlace(ticks - 1)
      && AttackersValid(attackers, nodes.Keys, world, ticks)
    }

    /** A simulation at rest: empty nodes, flows that have sent nothing. */
    constructor (nodes: map<NodeId, Node>, flows: map<nat, Flow>)
      requires forall x :: x in nodes ==> nodes[x].id == x && nodes[x].resident == {}
      requires forall id :: id in flows ==>
                 && flows[id].Valid() && flows[id].spec.id == id && flows[id].spec.source in nodes
                 && flows[id].seqNum == 0 && |flows[id].history| == 1 && flows[id].delivered == {}
      requires FlowsInside(flows, nodes.Keys)
      ensures Valid() && ticks == 1 && this.nodes == nodes && this.flows == flows && attackers == []
    {
      hide Flow.Valid;
      hide FlowsInside;
      hide InPlace;
      ticks := 1;
      this.nodes := nodes;
      this.flows := flows;
      attackers := [];
      world := map id | id in flows :: flows[id].View();
      contents := map x | x in nodes :: nodes[x].resident;
      arrived := map id | id in flows :: flows[id].delivered;
      new;
      AtRest();
    }

    lemma AtRest()
      requires Wired() && NodesHold(contents) && world.Keys == arrived.Keys == flows.Keys
      requires forall x :: x in contents ==> contents[x] == {}
      requires forall id :: id in flows ==>
                 && flows[id].Valid() && flows[id].seqNum == 0 && |flows[id].history| == 1 && flows[id].delivered == {}
                 && world[id] == flows[id].View() && arrived[id] == flows[id].delivered
      ensures InPlace(0)
    {
      hide Flow.Valid;
      hide View.Valid;
      hide Placed;
      hide Received;
      hide FlowsInside;
      forall id | id in flows ensures world[id].Valid() {
        flows[id].ViewIsValid();
      }
      NothingSent(world, contents, arrived);
    }

    /** An attacker may join at any time. */
    method AddAttacker(a: Attacker)
      requires Valid() && a !in attackers && a.Valid(world, nodes.Keys) && a.since + |a.log| == ticks
      modifies this`attackers
      ensures Valid() && attackers == old(attackers) + [a]
    {
      hide InPlace;
      hide Attacker.Valid;
      attackers := attackers + [a];
    }

    /** Phase 1: every flow sends a message, whose shares start at the flow's source. */
    method InjectNewShares(ghost n: nat, ghost w: World, ghost c: Contents, ghost d: Deliveries)
      returns (ghost w': World, ghost c': Contents)
      requires Wired() && Tracks(w, c, d) && Uniform(w, n, n + 1) && Placed(w, c, n)
      modifies nodes.Values, flows.Values
      ensures Tracks(w', c', d) && Uniform(w', n + 1, n + 1) && w' == Sending(w, {}) && Placed(w', c', n)
    {
      hide Flow.Tracked;
      hide FlowsInside;
      hide View.Valid;
      hide Injecting;
      hide Placed;
      hide Uniform;
      w', c' := w, c;
      InjectingStarts(w, n, c);
      var rest := flows.Keys;
      while rest != {}
        invariant rest <= flows.Keys && Tracks(w', c', d) && Injecting(w, n, rest, w', c')
        decreases rest
      {
        var id :| id in rest;
        w', c' := InjectNext(id, n, w, rest, w', c', d);
        rest := rest - {id};
      }
      InjectingEnds(w, n, w', c');
    }

    method InjectNext(
        id: nat, ghost n: nat, ghost w: World, ghost rest: set<nat>, ghost cur: World, ghost c: Contents,
        ghost d: Deliveries)
      returns (ghost w': World, ghost c': Contents)
      requires Wired() && Tracks(cur, c, d) && Uniform(w, n, n + 1) && Injecting(w, n, rest, cur, c)
      requires id in rest && rest <= flows.Keys && id in w
      modifies nodes[flows[id].spec.source], flows[id]
      ensures Tracks(w', c', d) && Injecting(w, n, rest - {id}, w', c')
    {
      hide Flow.Tracked;
      hide FlowsInside;
      hide View.Valid;
      hide Injecting;
      hide Uniform;
      var f := flows[id];
      assert f.Tracked(cur[id], d[id]);
      assert cur[id].spec == f.spec;
      InjectingStep(w, n, rest, cur, c, id);
      InjectFor(f, nodes[f.spec.source], cur[id], d[id]);
      c' := c[f.spec.source := nodes[f.spec.source].resident];
      w' := cur[id := AfterSend(cur[id])];
      forall z | z in flows ensures flows[z].Tracked(w'[z], d[z]) {
        assert z != id ==> flows[z] != f;
      }
    }

    method InjectFor(f: Flow, source: Node, ghost v: View, ghost d: set<Share>)
      requires f.Tracked(v, d) && |v.history| == v.sent + 1
      modifies f, source
      ensures AfterSend(v).Valid() && f.Tracked(AfterSend(v), d)
      ensures source.resident == old(source.resident) + AfterSend(v).MessageShares(v.sent)
    {
      hide Balanced;
      var shares := f.CreateShares();
      for j := 0 to |shares|
        modifies source
        invariant source.resident == old(source.resident) + Members(shares[..j])
      {
        source.ReceiveShare(shares[j]);
        MembersGrow(shares, j);
      }
      assert shares[..|shares|] == shares;
      SharesOfMessage(AfterSend(v), v.sent, shares);
    }

    /** Phase 2: takes every share off its node, delivering it or noting its next node. */
    method CollectMoves(ghost n: nat, ghost w: World, ghost c: Contents, ghost d: Deliveries)
      returns (inject: Moves, ghost c': Contents, ghost d': Deliveries)
      requires Wired() && Tracks(w, c, d) && Uniform(w, n + 1, n + 1) && PathsInside(w, nodes.Keys)
      requires Placed(w, c, n) && Received(w, d, n)
      modifies nodes.Values, flows.Values
      ensures Tracks(w, c', d') && Received(w, d', n + 1)
      ensures forall x :: x in c' ==> c'[x] == {}
      ensures forall y, sh :: sh in At(inject, y) <==> PresentIn(w, n + 1, sh, y)
    {
      hide Flow.Tracked;
      hide View.Valid;
      hide Collecting;
      hide MovedFrom;
      hide PresentIn;
      hide Received;
      hide Placed;
      hide FlowsInside;
      hide PathsInside;
      hide FlowsTrack;
      hide Uniform;
      hide ValidWorld;
      inject, c', d' := map[], c, d;
      CollectingStarts(w, n, nodes.Keys, c, d);
      ghost var moved: set<Share> := {};
      var rest := nodes.Keys;
      while rest != {}
        invariant rest <= nodes.Keys && Tracks(w, c', d')
        invariant forall x :: x in nodes ==> c'[x] == if x in rest then c[x] else {}
        invariant Collecting(w, n, moved, inject, d') && MovedFrom(w, n, rest, moved)
        decreases rest
      {
        var x :| x in rest;
        DrainStep(w, n, c, rest, moved, x);
        inject, d' := DrainNode(nodes[x], inject, n, w, c', d', moved);
        c' := c'[x := {}];
        moved, rest := moved + c[x], rest - {x};
      }
      CollectingEnds(w, n, moved, inject, d');
    }

    /** Moves all shares off one node. */
    method DrainNode(
        node: Node, inject: Moves, ghost n: nat, ghost w: World, ghost c: Contents, ghost d: Deliveries,
        ghost moved: set<Share>)
      returns (inject': Moves, ghost d': Deliveries)
      requires Wired() && node.id in nodes && nodes[node.id] == node && Tracks(w, c, d) && ValidWorld(w)
      requires Collecting(w, n, moved, inject, d) && c[node.id] !! moved
      requires forall sh :: sh in c[node.id] ==> PresentIn(w, n, sh, node.id)
      modifies node, flows.Values
      ensures Tracks(w, c[node.id := {}], d') && Collecting(w, n, moved + c[node.id], inject', d')
    {
      hide Flow.Tracked;
      hide View.Valid;
      hide Collecting;
      hide View.Present;
      hide FlowsInside;
      hide ValidWorld;
      inject', d' := inject, d;
      ghost var here := c[node.id];
      var todo := node.resident;
      assert moved + (here - todo) == moved;
      while todo != {}
        modifies flows.Values
        invariant todo <= here && FlowsTrack(w, d')
        invariant Collecting(w, n, moved + (here - todo), inject', d')
        decreases todo
      {
        var share :| share in todo;
        inject', d' := MoveShare(share, node, inject', n, w, d', moved + (here - todo));
        assert moved + (here - todo) + {share} == moved + (here - (todo - {share}));
        todo := todo - {share};
      }
      assert moved + (here - todo) == moved + here;
      node.ClearResidentPackets();
    }

    /** Moves one share: delivered at the end of its path, otherwise queued for the next node. */
    method MoveShare(
        share: Share, node: Node, inject: Moves, ghost n: nat, ghost w: World, ghost d: Deliveries,
        ghost moved: set<Share>)
      returns (inject': Moves, ghost d': Deliveries)
      requires Wired() && ValidWorld(w) && FlowsTrack(w, d) && Collecting(w, n, moved, inject, d)
      requires PresentIn(w, n, share, node.id) && share !in moved
      modifies flows[share.flowId]
      ensures FlowsTrack(w, d') && Collecting(w, n, moved + {share}, inject', d')
    {
      hide Balanced;
      hide Collecting;
      hide FlowsInside;
      hide View.Arrived;
      hide View.InNetwork;
      var f := flows[share.flowId];
      inject', d' := inject, d;
      assert f.Tracked(w[share.flowId], d[share.flowId]);
      MoveIsNextHop(w[share.flowId], n, share, node.id);
      var next, i := f.NextHop(share, node);
      assert i == n - share.seqNum;
      if next == -1 {
        DeliverStep(w, n, moved, inject, d, share, node.id);
        d' := Deliver(share, w, d);
      } else {
        QueueStep(w, n, moved, inject, d, share, node.id, next);
        inject' := inject[next := At(inject, next) + {share}];
      }
    }

    method Deliver(share: Share, ghost w: World, ghost d: Deliveries) returns (ghost d': Deliveries)
      requires Wired() && FlowsTrack(w, d) && share.flowId in flows
      requires w[share.flowId].Created(share) && share !in d[share.flowId]
      modifies flows[share.flowId]
      ensures d' == d[share.flowId := d[share.flowId] + {share}] && FlowsTrack(w, d')
    {
      hide Balanced;
      hide FlowsInside;
      hide View.Valid;
      var f := flows[share.flowId];
      assert f.Tracked(w[share.flowId], d[share.flowId]);
      f.ReceiveShare(share);
      d' := d[share.flowId := d[share.flowId] + {share}];
      forall z | z in flows ensures flows[z].Tracked(w[z], d'[z]) {
        assert z != share.flowId ==> flows[z] != f;
      }
    }

    /** Phase 3: the collected shares enter their next nodes. */
    method DepositMoves(inject: Moves, ghost n: nat, ghost w: World, ghost c: Contents, ghost d: Deliveries)
      returns (ghost c': Contents)
      requires Wired() && Tracks(w, c, d) && ValidWorld(w) && PathsInside(w, nodes.Keys)
      requires forall x :: x in c ==> c[x] == {}
      requires forall y, sh :: sh in At(inject, y) <==> PresentIn(w, n, sh, y)
      modifies nodes.Values
      ensures Tracks(w, c', d) && Placed(w, c', n)
    {
      hide Flow.Tracked;
      hide View.Valid;
      hide View.Present;
      hide FlowsInside;
      hide Placed;
      hide PresentIn;
      hide PathsInside;
      hide Depositing;
      hide FlowsTrack;
      hide ValidWorld;
      c' := c;
      var rest := inject.Keys;
      DepositStarts(inject, c);
      while rest != {}
        modifies nodes.Values
        invariant rest <= inject.Keys && NodesHold(c') && Depositing(inject, rest, c')
        decreases rest
      {
        var y :| y in rest;
        DepositStep(w, n, inject, rest, c', y);
        if inject[y] != {} {
          c' := DepositNext(y, inject[y], c');
        }
        rest := rest - {y};
      }
      DepositEnds(w, n, inject, c');
    }

    method DepositNext(y: NodeId, shares: set<Share>, ghost c: Contents) returns (ghost c': Contents)
      requires Wired() && NodesHold(c) && y in nodes && c[y] == {}
      modifies nodes[y]
      ensures c' == c[y := shares] && NodesHold(c')
    {
      hide FlowsInside;
      DepositAt(nodes[y], shares);
      c' := c[y := shares];
      forall x | x in nodes ensures nodes[x].resident == c'[x] {
        assert x != y ==> nodes[x] != nodes[y];
      }
    }

    method DepositAt(node: Node, shares: set<Share>)
      modifies node
      ensures node.resident == old(node.resident) + shares
    {
      var todo := shares;
      while todo != {}
        invariant todo <= shares && node.resident == old(node.resident) + (shares - todo)
        decreases todo
      {
        var share :| share in todo;
        node.ReceiveShare(share);
        todo := todo - {share};
      }
    }

    /** Phase 4: every flow samples the paths of its next message. */
    method HopFlows(ghost n: nat, ghost w: World, ghost c: Contents, ghost d: Deliveries)
      returns (ghost w': World)
      requires Wired() && Tracks(w, c, d) && Uniform(w, n, n) && Placed(w, c, n) && Received(w, d, n)
      modifies flows.Values
      ensures Tracks(w', c, d) && Uniform(w', n, n + 1) && Placed(w', c, n) && Received(w', d, n)
      ensures Hopping(w, {}, w')
    {
      hide Flow.Tracked;
      hide View.Valid;
      hide FlowsInside;
      hide Placed;
      hide Received;
      hide NodesHold;
      hide Hopping;
      hide ValidWorld;
      HoppingStarts(w);
      w' := w;
      var rest := flows.Keys;
      while rest != {}
        modifies flows.Values
        invariant rest <= flows.Keys && FlowsTrack(w', d) && Hopping(w, rest, w')
        decreases rest
      {
        var id :| id in rest;
        HoppingKeeps(w, rest, w', id);
        ghost var v := HopFlow(flows[id], w'[id], d[id]);
        HoppingStep(w, rest, w', id, v);
        w' := w'[id := v];
        forall z | z in flows ensures flows[z].Tracked(w'[z], d[z]) {
          assert z != id ==> flows[z] != flows[id];
        }
        rest := rest - {id};
      }
      HoppingEnds(w, n, w', c, d);
    }

    method HopFlow(f: Flow, ghost v: View, ghost d: set<Share>) returns (ghost v': View)
      requires f.Tracked(v, d) && v.sent == |v.history|
      modifies f
      ensures f.Tracked(v', d) && HasHopped(v, v') && v'.Valid()
    {
      f.Hop();
      v' := f.View();
    }

    /** Phase 5: every attacker captures, then re-selects. */
    method RunAttackers(ghost n: nat, ghost w0: World)
      requires InPlace(n) && n == ticks > 0
      requires AttackersValid(attackers, nodes.Keys, w0, n) && Continues(w0, world, n - 1)
      modifies attackers
      ensures InPlace(n)
      ensures AttackersValid(attackers, nodes.Keys, world, n + 1)
      ensures forall i :: 0 <= i < |attackers| ==> old(attackers[i].log) <= attackers[i].log
    {
      hide InPlace;
      hide Attacker.Valid;
      hide Continues;
      for i := 0 to |attackers|
        modifies attackers
        invariant InPlace(n)
        invariant forall j :: 0 <= j < i ==> Done(attackers[j], n) && old(attackers[j].log) <= attackers[j].log
        invariant forall j :: i <= j < |attackers| ==> unchanged(attackers[j])
      {
        assert attackers[i].Valid(w0, nodes.Keys) && attackers[i].since + |attackers[i].log| == n;
        RunAttacker(attackers[i], n, w0);
      }
    }

    ghost predicate Done(a: Attacker, n: nat)
      reads this`world, a
    {
      a.Valid(world, nodes.Keys) && a.since + |a.log| == n + 1
    }

    method RunAttacker(a: Attacker, ghost n: nat, ghost w0: World)
      requires InPlace(n) && n == ticks > 0
      requires a.Valid(w0, nodes.Keys) && a.since + |a.log| == n && Continues(w0, world, n - 1)
      modifies a
      ensures InPlace(n)
      ensures a.Valid(world, nodes.Keys) && a.since + |a.log| == n + 1 && old(a.log) <= a.log
    {
      hide View.Valid;
      hide PresentIn;
      hide FlowsInside;
      hide Attacker.Valid;
      hide FlowSpec.Valid;
      hide Received;
      hide Balanced;
      hide ValidWorld;
      a.HasTarget(w0, nodes.Keys);
      assert flows[0].Tracked(world[0], arrived[0]);
      a.Observe(nodes, flows[0].spec, ticks, w0, world);
    }

    /** Phases 1 to 4: all shares advance by one node, simultaneously, and flows re-sample. */
    method MoveAll(ghost n: nat, ghost w: World, ghost c: Contents, ghost d: Deliveries)
      returns (ghost w': World, ghost c': Contents, ghost d': Deliveries)
      requires Wired() && Tracks(w, c, d) && Uniform(w, n, n + 1) && Placed(w, c, n) && Received(w, d, n)
      modifies nodes.Values, flows.Values
      ensures Tracks(w', c', d') && Uniform(w', n + 1, n + 2) && Placed(w', c', n + 1) && Received(w', d', n + 1)
      ensures Continues(w, w', n)
    {
      hide Flow.Tracked;
      hide View.Valid;
      hide Placed;
      hide Received;
      hide FlowsInside;
      hide PathsInside;
      hide PresentIn;
      hide NodesHold;
      hide FlowsTrack;
      hide Sending;
      hide Hopping;
      hide Uniform;
      hide ValidWorld;
      hide Continues;
      ghost var w1, c1 := InjectNewShares(n, w, c, d);
      SendingDelivers(w, w1, n, d);
      Enclosed(w1, d);
      var inject;
      ghost var c2;
      inject, c2, d' := CollectMoves(n, w1, c1, d);
      c' := DepositMoves(inject, n + 1, w1, c2, d');
      w' := HopFlows(n + 1, w1, c', d');
      StepContinues(w, w1, w', n);
    }

    method MoveWorld(ghost n: nat)
      requires InPlace(n)
      modifies this`world, this`contents, this`arrived, nodes.Values, flows.Values
      ensures InPlace(n + 1) && Continues(old(world), world, n)
    {
      hide Placed;
      hide Received;
      hide FlowsInside;
      hide NodesHold;
      hide FlowsTrack;
      hide Uniform;
      hide ValidWorld;
      hide Continues;
      ghost var w', c', d' := MoveAll(n, world, contents, arrived);
      world, contents, arrived := w', c', d';
      assert Tracks(w', c', d');
    }

    /** One step of the simulation.  Afterwards every share of message s on path p is exactly where the
        closed form puts it, n = ticks - 1 steps after the start: at p[n - s], or delivered once. */
    method Step()
      requires Valid()
      modifies this, nodes.Values, flows.Values, attackers
      ensures Valid() && ticks == old(ticks) + 1 && attackers == old(attackers)
      ensures Continues(old(world), world, old(ticks) - 1)
      ensures forall i :: 0 <= i < |attackers| ==> old(attackers[i].log) <= attackers[i].log
    {
      hide InPlace;
      hide AttackersValid;
      hide Continues;
      hide Attacker.Valid;
      hide Wired;
      MoveWorld(ticks - 1);
      RunAttackers(ticks, old(world));
      ticks := ticks + 1;
    }

    /** What the state of one flow object is. */
    lemma FlowState(id: nat)
      requires Valid() && id in flows
      ensures ValidWorld(world) && id in world && world[id].Valid() && id in arrived && world[id].sent == ticks - 1
      ensures flows[id].Tracked(world[id], arrived[id])
      ensures Placed(world, contents, ticks - 1) && Received(world, arrived, ticks - 1)
      ensures NodesHold(contents) && PathsInside(world, nodes.Keys)
    {
      hide AttackersValid;
      hide Placed;
      hide Received;
      hide FlowsInside;
      hide PathsInside;
      hide View.Valid;
      hide Flow.Valid;
      Enclosed(world, arrived);
    }

    /** The books of a flow at the end of any step: every message sent is received or has an open counter
        below k, the messages received are the ones all of whose shares have travelled their whole path, and
        every share sent is resident at exactly one node or delivered. */
    lemma Totals(id: nat)
      requires Valid() && id in flows
      ensures ValidWorld(world) && id in world && world[id].spec == flows[id].spec && world[id].sent == ticks - 1
      ensures flows[id].messagesTx == ticks - 1 == flows[id].messagesRx + |flows[id].received|
      ensures forall s :: s in flows[id].received ==> flows[id].received[s] < flows[id].spec.k
      ensures flows[id].messagesRx == |world[id].Completed(ticks - 1)|
      ensures flows[id].delivered == world[id].Delivered(ticks - 1)
      ensures forall x :: x in nodes ==> SharesOfFlow(nodes[x].resident, id) == world[id].ResidentAt(ticks - 1, x)
      ensures Occupancy(world[id], ticks - 1, nodes.Keys) + |flows[id].delivered| ==
              flows[id].spec.k * flows[id].messagesTx
    {
      hide Valid;
      hide Occupancy;
      hide FlowsInside;
      hide Balanced;
      hide View.Valid;
      hide View.Delivered;
      hide View.Completed;
      hide View.ResidentAt;
      hide Received;
      hide Placed;
      hide PathsInside;
      hide SharesOfFlow;
      FlowState(id);
      var f, n, v := flows[id], ticks - 1, world[id];
      MessagesAddUp(v, f.delivered, f.received, f.messagesRx);
      DeliveredShares(world, arrived, n, id);
      FinishedIsCompleted(v, n);
      RxIsFinished(v, f.delivered, f.received, f.messagesRx);
      forall x | x in nodes ensures SharesOfFlow(nodes[x].resident, id) == v.ResidentAt(n, x) {
        ResidentShares(world, contents, n, id, x);
      }
      ConservationInside(world, n, nodes.Keys, id);
    }

    /** The shares of a flow on the given nodes. */
    ghost function Resident(id: nat, xs: set<NodeId>): nat
      requires xs <= nodes.Keys
      reads nodes.Values
    {
      if xs == {} then 0
      else
        var x :| x in xs;
        |SharesOfFlow(nodes[x].resident, id)| + Resident(id, xs - {x})
    }

    lemma {:induction false} ResidentCounts(id: nat, xs: set<NodeId>, v: View, n: nat)
      requires xs <= nodes.Keys && v.Valid()
      requires forall x :: x in nodes ==> SharesOfFlow(nodes[x].resident, id) == v.ResidentAt(n, x)
      ensures Resident(id, xs) == |ResidentIn(v, n, xs)|
      decreases xs
    {
      hide SharesOfFlow;
      hide View.ResidentAt;
      hide View.Valid;
      hide ResidentIn;
      if xs == {} {
        NoneResident(v, n);
      } else {
        var x :| x in xs && Resident(id, xs) == |SharesOfFlow(nodes[x].resident, id)| + Resident(id, xs - {x});
        ResidentCounts(id, xs - {x}, v, n);
        ResidentSplit(v, n, xs, x);
        CardUnion(v.ResidentAt(n, x), ResidentIn(v, n, xs - {x}));
      }
    }

    /** Conservation in the program's own variables: every share sent is on a node, or belongs to a message received,
        or is counted by an open counter. */
    lemma SharesAddUp(id: nat)
      requires Valid() && id in flows
      ensures var f := flows[id];
              Resident(id, nodes.Keys) + f.spec.k * f.messagesRx + OpenSum(f.received, f.messagesTx) ==
              f.spec.k * f.messagesTx
    {
      hide Valid;
      hide Occupancy;
      hide Balanced;
      hide View.Valid;
      hide View.Delivered;
      hide View.ResidentAt;
      hide Received;
      hide Placed;
      hide PathsInside;
      hide SharesOfFlow;
      FlowState(id);
      Totals(id);
      var f, n, v := flows[id], ticks - 1, world[id];
      DeliveredIsCounted(v, f.delivered, f.received, f.messagesRx);
      ResidentCounts(id, nodes.Keys, v, n);
      OccupancyCounts(v, n, nodes.Keys);
    }

    /** When no path of the flow has more than len nodes, all but the last len - 1 messages have been received
        and at most k * (len - 1) shares are under way; with equal lengths that count is exact. */
    lemma Latency(id: nat, len: nat)
      requires Valid() && id in flows && len >= 1
      requires forall i :: 0 <= i < |flows[id].spec.paths| ==> |flows[id].spec.paths[i]| <= len
      ensures ValidWorld(world) && id in world
      ensures flows[id].messagesRx >= ticks - 1 - (len - 1)
      ensures Occupancy(world[id], ticks - 1, nodes.Keys) <= flows[id].spec.k * (len - 1)
      ensures (forall i :: 0 <= i < |flows[id].spec.paths| ==> |flows[id].spec.paths[i]| == len) ==>
                flows[id].messagesRx == if ticks >= len then ticks - len else 0
    {
      hide Valid;
      hide Occupancy;
      hide FlowsInside;
      hide Balanced;
      hide View.Valid;
      hide View.InFlight;
      hide View.Delivered;
      hide View.Completed;
      hide View.ResidentAt;
      hide Received;
      hide Placed;
      hide PathsInside;
      FlowState(id);
      Totals(id);
      var n, v := ticks - 1, world[id];
      ConservationInside(world, n, nodes.Keys, id);
      LatencyBound(v, n, len);
      if forall i :: 0 <= i < |v.spec.paths| ==> |v.spec.paths[i]| == len {
        LatencyExact(v, n, len);
      }
    }

    /** With one flow, on internally disjoint paths, an interior node never holds two shares. */
    lemma InteriorHoldsAtMostOne(id: nat, x: NodeId)
      requires Valid() && flows.Keys == {id} && flows[id].spec.Disjoint()
      requires x in nodes && x != flows[id].spec.source && x != flows[id].spec.sink
      ensures |nodes[x].resident| <= 1
    {
      hide Valid;
      hide View.Present;
      hide View.Valid;
      hide Received;
      hide PathsInside;
      hide Balanced;
      FlowState(id);
      OneFlowOnly(id);
      forall a, b | a in nodes[x].resident && b in nodes[x].resident ensures a == b {
        assert PresentIn(world, ticks - 1, a, x) && PresentIn(world, ticks - 1, b, x);
        Transport.InteriorHoldsAtMostOne(world[id], ticks - 1, a, b, x);
      }
      CardAtMostOne(nodes[x].resident);
    }

    lemma OneFlowOnly(id: nat)
      requires Valid() && flows.Keys == {id}
      ensures world.Keys == {id}
    {
      hide AttackersValid;
      hide Placed;
      hide Received;
      hide Uniform;
    }

    lemma Enclosed(w: World, d: Deliveries)
      requires Wired() && FlowsTrack(w, d)
      ensures PathsInside(w, nodes.Keys)
    {
      forall id, q, a | id in w && 0 <= q < |w[id].spec.paths| && 0 <= a < |w[id].spec.paths[q]|
        ensures w[id].spec.paths[q][a] in nodes.Keys
      {
        assert flows[id].Tracked(w[id], d[id]);
      }
    }
  }
}
