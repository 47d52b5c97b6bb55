/** When attackers re-select.  The random node, random path and ideal attackers do so in the multiples of their hop
    period; the one-node-per-path attacker, which tests a bitwise and, in the steps that have none of the period's
    bits. */
module Timing {
  import opened Basics
  import opened Products
  import opened Transport
  import opened Attack
  import opened Recovery

  /** A run of one attacker, among any number of flows. */
  ghost predicate Follows(pf: Profile, w: World, nodes: set<NodeId>, since: nat, log: seq<Watch>) {
    ValidWorld(w) && 0 in w && pf.period > 0 && IsRunSince(pf, w, nodes, since, log)
  }

  /** It re-selects in its step i + 1, and what it watches then is fresh. */
  ghost predicate Hops(pf: Profile, target: FlowSpec, nodes: set<NodeId>, log: seq<Watch>, i: nat)
    requires i + 1 < |log|
  {
    log[i + 1].hopCount == log[i].hopCount + 1 && Fresh(pf, target, nodes, log[i + 1].monitored)
  }

  /** It does not. */
  ghost predicate Rests(log: seq<Watch>, i: nat)
    requires i + 1 < |log|
  {
    log[i + 1].hopCount == log[i].hopCount && log[i + 1].monitored == log[i].monitored
  }

  /** What a fresh selection is: k inner nodes, k first hops, the interiors of k paths, or a node on each of k paths. */
  ghost predicate Fresh(pf: Profile, target: FlowSpec, nodes: set<NodeId>, m: set<NodeId>) {
    match pf.strategy
    case RandomNode => target.source !in m && target.sink !in m && m <= nodes && |m| == pf.k
    case RandomPath => SampledFirstHops(target.paths, pf.k, m)
    case IdealPath => SampledInteriors(target.paths, pf.k, m)
    case OneNodePerPath => SampledOnePerPath(target.paths, pf.k, m)
    case _ => false
  }

  /** What an attacker does on creation. */
  ghost predicate Starts(pf: Profile, target: FlowSpec, nodes: set<NodeId>, first: Watch, selects: bool) {
    if selects then first.hopCount == 1 && Fresh(pf, target, nodes, first.monitored)
    else first.hopCount == 0 && first.monitored == {}
  }

  // ----- the attackers that test the remainder -----

  predicate Periodic(s: Strategy) {
    s.RandomNode? || s.RandomPath? || s.IdealPath?
  }

  /** They re-select in the multiples of the hop period, and in no other step. */
  lemma PeriodicSelects(pf: Profile, w: World, nodes: set<NodeId>, since: nat, log: seq<Watch>, i: nat)
    requires Follows(pf, w, nodes, since, log) && Periodic(pf.strategy) && i + 1 < |log|
    ensures if (since + i + 1) % pf.period == 0 then Hops(pf, w[0].spec, nodes, log, i) else Rests(log, i)
  {
    hide SampledFirstHops;
    hide SampledInteriors;
    assert WatchStep(pf, w, nodes, since + i + 1, log[i], log[i + 1]);
  }

  /** On creation they select only if the hop period is one. */
  lemma PeriodicStarts(pf: Profile, w: World, nodes: set<NodeId>, since: nat, log: seq<Watch>)
    requires Follows(pf, w, nodes, since, log) && Periodic(pf.strategy)
    ensures Starts(pf, w[0].spec, nodes, log[0], pf.period == 1)
  {
    hide SampledFirstHops;
    hide SampledInteriors;
    if pf.period > 1 {
      DivUnique(1, pf.period, 0, 1);
    }
  }

  /** How often they have hopped after i steps. */
  lemma {:induction false} PeriodicHopCount(pf: Profile, w: World, nodes: set<NodeId>, log: seq<Watch>, i: nat)
    requires Follows(pf, w, nodes, 0, log) && Periodic(pf.strategy) && i < |log|
    ensures log[i].hopCount == i / pf.period + if pf.period == 1 then 1 else 0
  {
    hide IsRunSince;
    hide Fresh;
    if i == 0 {
      PeriodicStarts(pf, w, nodes, 0, log);
      DivUnique(0, pf.period, 0, 0);
    } else {
      PeriodicHopCount(pf, w, nodes, log, i - 1);
      PeriodicSelects(pf, w, nodes, 0, log, i - 1);
      DivModStep(i - 1, pf.period);
    }
  }

  /** Before the first multiple they watch nothing, and then the sample of the last multiple. */
  lemma {:induction false} PeriodicWatches(pf: Profile, w: World, nodes: set<NodeId>, log: seq<Watch>, i: nat)
    requires Follows(pf, w, nodes, 0, log) && Periodic(pf.strategy) && i < |log|
    ensures if pf.period == 1 || i >= pf.period
            then
              && log[i].monitored == log[RoundDown(i, pf.period)].monitored
              && Fresh(pf, w[0].spec, nodes, log[i].monitored)
            else log[i].monitored == {}
  {
    hide IsRunSince;
    hide Fresh;
    hide RoundDown;
    if i == 0 {
      PeriodicStarts(pf, w, nodes, 0, log);
      RoundDownStep(0, pf.period);
    } else {
      PeriodicWatches(pf, w, nodes, log, i - 1);
      PeriodicSelects(pf, w, nodes, 0, log, i - 1);
      RoundDownStep(i, pf.period);
    }
  }

  // ----- how much is watched -----

  /** One interior node on each path of a sample: as many nodes as paths. */
  lemma OnePerPathCount(f: FlowSpec, c: seq<nat>, hops: seq<nat>, m: set<NodeId>)
    requires f.Valid() && f.Disjoint() && IsChoice(c, |f.paths|, |c|) && OnePerPath(f.paths, c, hops, m)
    ensures |m| == |c| && f.source !in m && f.sink !in m
  {
    var xs := seq(|c|, i requires 0 <= i < |c| => f.paths[c[i]][hops[i]]);
    forall i, j | 0 <= i < j < |c| ensures xs[i] != xs[j] {
      if xs[i] == xs[j] {
        assert Crosses(f.paths, c[i], hops[i], c[j], hops[j]);
        assert false;
      }
    }
    CardMembers(xs);
    forall x ensures x in m <==> x in Members(xs) {
      if x in m {
        var i :| 0 <= i < |c| && x == f.paths[c[i]][hops[i]];
        assert x == xs[i];
      }
    }
    assert m == Members(xs);
    forall i | 0 <= i < |c| ensures f.source != xs[i] && f.sink != xs[i] {
      assert f.IsRoute(f.paths[c[i]]);
    }
  }

  ghost function Interiors(paths: seq<Path>, c: seq<nat>): (m: set<NodeId>)
    requires forall i :: 0 <= i < |c| ==> c[i] < |paths|
    ensures InteriorsOf(paths, c, m)
  {
    set i, a | 0 <= i < |c| && 0 < a < |paths[c[i]]| - 1 :: paths[c[i]][a]
  }

  /** All interior nodes of a sample of paths with l interior nodes each. */
  lemma {:induction false} InteriorsCount(f: FlowSpec, c: seq<nat>, m: set<NodeId>, l: nat)
    requires f.Valid() && f.Disjoint() && IsChoice(c, |f.paths|, |c|) && InteriorsOf(f.paths, c, m)
    requires forall q :: 0 <= q < |f.paths| ==> |f.paths[q]| == l + 2
    ensures |m| == Times(|c|, l) && f.source !in m && f.sink !in m
  {
    hide FlowSpec.Valid;
    hide FlowSpec.Disjoint;
    hide InteriorsOf;
    hide Interiors;
    hide Distinct;
    hide Members;
    if c == [] {
      NoInteriors(f.paths, c, m);
    } else {
      var n := |c| - 1;
      var p := f.paths[c[n]];
      PartOfChoice(c, |f.paths|, n);
      var before := Interiors(f.paths, c[..n]);
      InteriorsCount(f, c[..n], before, l);
      InnerCount(f, c[n]);
      LastInteriors(f, c, m, before);
      CardUnion(before, Members(p[1..|p| - 1]));
    }
  }

  lemma NoInteriors(paths: seq<Path>, c: seq<nat>, m: set<NodeId>)
    requires c == [] && InteriorsOf(paths, c, m)
    ensures m == {}
  {
  }

  lemma PartOfChoice(c: seq<nat>, n: nat, k: nat)
    requires IsChoice(c, n, |c|) && k <= |c|
    ensures IsChoice(c[..k], n, k)
  {
  }

  lemma InnerCount(f: FlowSpec, q: nat)
    requires f.Valid() && q < |f.paths|
    ensures var p := f.paths[q]; |p| >= 2 && |Members(p[1..|p| - 1])| == |p| - 2
  {
    assert f.IsRoute(f.paths[q]);
    CardMembers(f.paths[q][1..|f.paths[q]| - 1]);
  }

  lemma LastInteriors(f: FlowSpec, c: seq<nat>, m: set<NodeId>, before: set<NodeId>)
    requires f.Valid() && f.Disjoint() && c != [] && IsChoice(c, |f.paths|, |c|)
    requires InteriorsOf(f.paths, c, m) && InteriorsOf(f.paths, c[..|c| - 1], before)
    ensures var p := f.paths[c[|c| - 1]];
            && |p| >= 2 && before !! Members(p[1..|p| - 1]) && m == before + Members(p[1..|p| - 1])
            && f.source !in Members(p[1..|p| - 1]) && f.sink !in Members(p[1..|p| - 1])
  {
    var n := |c| - 1;
    var p := f.paths[c[n]];
    assert f.IsRoute(p);
    var inner := p[1..|p| - 1];
    assert forall a :: 0 < a < |p| - 1 ==> p[a] == inner[a - 1];
    forall x | x in before ensures x !in inner {
      var i, a :| 0 <= i < n && 0 < a < |f.paths[c[i]]| - 1 && x == f.paths[c[i]][a];
      if b :| 0 <= b < |inner| && inner[b] == x {
        assert Crosses(f.paths, c[i], a, c[n], b + 1);
        assert false;
      }
    }
    assert forall i :: 0 <= i < n ==> c[..n][i] == c[i];
    forall x ensures x in m <==> x in before || x in inner {
      if x in m {
        var i, a :| 0 <= i < |c| && 0 < a < |f.paths[c[i]]| - 1 && x == f.paths[c[i]][a];
      }
      if x in inner {
        var b :| 0 <= b < |inner| && inner[b] == x;
        assert x == f.paths[c[n]][b + 1];
      }
    }
  }

  /** Every fresh selection watches k nodes or, for the ideal attacker on paths with l interior nodes, k times l; the
      flow's end points are never among them. */
  lemma WatchedCount(pf: Profile, f: FlowSpec, nodes: set<NodeId>, l: nat, m: set<NodeId>)
    requires f.Valid() && f.Disjoint() && Fresh(pf, f, nodes, m)
    requires forall q :: 0 <= q < |f.paths| ==> |f.paths[q]| == l + 2
    ensures |m| == if pf.strategy.IdealPath? then pf.k * l else pf.k
    ensures f.source !in m && f.sink !in m
  {
    match pf.strategy
    case RandomNode =>
    case RandomPath =>
      var c :| IsChoice(c, |f.paths|, pf.k) && FirstHopsOf(f.paths, c, m);
      OnePerPathCount(f, c, Repeat(1, |c|), m);
    case IdealPath =>
      var c :| IsChoice(c, |f.paths|, pf.k) && InteriorsOf(f.paths, c, m);
      InteriorsCount(f, c, m, l);
      TimesIsProduct(pf.k, l);
    case OneNodePerPath =>
      var c, hops :| IsChoice(c, |f.paths|, pf.k) && OnePerPath(f.paths, c, hops, m);
      OnePerPathCount(f, c, hops, m);
    case _ =>
  }

  // ----- what that makes of recovery -----

  /** The random path attacker, by its samples: message s is recovered if and only if it was sent after the first
      selection, and the sample of the last multiple of the hop period is the set of its first hops. */
  lemma RandomPathBySample(pf: Profile, w: World, nodes: set<NodeId>, log: seq<Watch>, n: nat, s: nat)
    requires OneFlow(pf, w) && IsRun(pf, w, nodes, log) && pf.strategy.RandomPath?
    requires n < |log| && n <= w[0].sent && s < n
    ensures Recovers(pf.k, log[n].captured, s) <==>
            && (pf.period == 1 || s >= pf.period)
            && log[RoundDown(s, pf.period)].monitored == FirstHops(w[0], s)
  {
    hide IsRun;
    hide Recovers;
    hide Fresh;
    RunFollows(pf, w, nodes, log);
    PeriodicWatches(pf, w, nodes, log, s);
    RandomPathRecovers(pf, w, nodes, log, n, s);
    assert w[0].spec.paths[w[0].history[s][0]][1] in FirstHops(w[0], s);
  }

  lemma RunFollows(pf: Profile, w: World, nodes: set<NodeId>, log: seq<Watch>)
    requires OneFlow(pf, w) && IsRun(pf, w, nodes, log)
    ensures Follows(pf, w, nodes, 0, log)
  {
    hide IsRunSince;
  }

  /** A sample of as many paths as there are is all of them. */
  lemma ChoiceIsAll(c: seq<nat>, n: nat)
    requires IsChoice(c, n, n)
    ensures forall q: nat :: q < n ==> q in c
  {
    CardMembers(c);
    CardSubset(Members(c), Below(n));
    forall q: nat | q < n ensures q in c {
      assert q in Below(n);
      assert q in Members(c);
    }
  }

  /** Watching the first hops of all paths means watching those of any message. */
  lemma EveryFirstHop(v: View, k: nat, m: set<NodeId>, s: nat)
    requires v.Valid() && s < v.sent && k == v.spec.k == |v.spec.paths| && SampledFirstHops(v.spec.paths, k, m)
    ensures m == FirstHops(v, s)
  {
    var c :| IsChoice(c, k, k) && FirstHopsOf(v.spec.paths, c, m);
    ChoiceIsAll(c, k);
    ChoiceIsAll(v.history[s], k);
    forall x ensures x in m <==> x in FirstHops(v, s) {
      if x in m {
        var i :| 0 <= i < |c| && v.spec.paths[c[i]][1] == x;
        assert c[i] in v.history[s];
        var j :| 0 <= j < k && v.history[s][j] == c[i];
      }
      if x in FirstHops(v, s) {
        var j :| 0 <= j < k && v.spec.paths[v.history[s][j]][1] == x;
        assert v.history[s][j] in c;
        var i :| 0 <= i < |c| && c[i] == v.history[s][j];
      }
    }
  }

  /** When all paths are active the random path attacker recovers every message sent after its first selection. */
  lemma RandomPathOnAll(pf: Profile, w: World, nodes: set<NodeId>, log: seq<Watch>, n: nat, s: nat)
    requires OneFlow(pf, w) && IsRun(pf, w, nodes, log) && pf.strategy.RandomPath? && pf.k == |w[0].spec.paths|
    requires n < |log| && n <= w[0].sent && s < n
    ensures Recovers(pf.k, log[n].captured, s) <==> pf.period == 1 || s >= pf.period
  {
    hide IsRun;
    hide Recovers;
    hide SampledFirstHops;
    RunFollows(pf, w, nodes, log);
    PeriodicWatches(pf, w, nodes, log, s);
    RandomPathRecovers(pf, w, nodes, log, n, s);
    if pf.period == 1 || s >= pf.period {
      EveryFirstHop(w[0], pf.k, log[s].monitored, s);
    } else {
      assert w[0].spec.paths[w[0].history[s][0]][1] in FirstHops(w[0], s);
    }
  }

  lemma EveryInterior(v: View, k: nat, m: set<NodeId>, q: nat)
    requires v.Valid() && k == v.spec.k == |v.spec.paths| && SampledInteriors(v.spec.paths, k, m)
    requires q < k && |v.spec.paths[q]| > 2
    ensures v.spec.paths[q][1] in m
  {
    var c :| IsChoice(c, k, k) && InteriorsOf(v.spec.paths, c, m);
    ChoiceIsAll(c, k);
    assert q in c;
    var i :| 0 <= i < |c| && c[i] == q;
  }

  /** When all paths are active, with l interior nodes each, the ideal attacker recovers every message that was still
      inside when it first selected. */
  lemma IdealOnAll(pf: Profile, w: World, nodes: set<NodeId>, l: nat, log: seq<Watch>, n: nat, s: nat)
    requires OneFlow(pf, w) && IsRun(pf, w, nodes, log) && pf.strategy.IdealPath? && pf.k == |w[0].spec.paths|
    requires l >= 1 && forall q :: 0 <= q < |w[0].spec.paths| ==> |w[0].spec.paths[q]| == l + 2
    requires n < |log| && n <= w[0].sent && s < n
    ensures Recovers(pf.k, log[n].captured, s) <==>
            pf.period == 1 || s >= pf.period || (pf.period < n && pf.period < s + l)
  {
    hide IsRun;
    hide Recovers;
    hide SampledInteriors;
    hide FlowSpec.Disjoint;
    var v, p := w[0], pf.period;
    RunFollows(pf, w, nodes, log);
    IdealRecovers(pf, w, nodes, log, n, s);
    var i := if p == 1 || s >= p then s else p;
    forall j | 0 <= j < pf.k
      ensures SampledInTransit(v, log, n, s, j) <==> p == 1 || s >= p || (p < n && p < s + l)
    {
      if p == 1 || s >= p || (p < n && p < s + l) {
        PeriodicWatches(pf, w, nodes, log, i);
        EveryInterior(v, pf.k, log[i].monitored, v.history[s][j]);
      } else {
        forall z | s <= z < n && z - s < l ensures log[z].monitored == {} {
          PeriodicWatches(pf, w, nodes, log, z);
        }
      }
    }
    assert SampledInTransit(v, log, n, s, 0) ==> p == 1 || s >= p || (p < n && p < s + l);
  }

  /** None of them recovers a message that had left the interior before the first selection. */
  lemma NothingBefore(pf: Profile, w: World, nodes: set<NodeId>, l: nat, log: seq<Watch>, n: nat, s: nat)
    requires OneFlow(pf, w) && IsRun(pf, w, nodes, log) && Periodic(pf.strategy)
    requires forall q :: 0 <= q < |w[0].spec.paths| ==> |w[0].spec.paths[q]| == l + 2
    requires n < |log| && Recovers(pf.k, log[n].captured, s)
    ensures pf.period == 1 || (pf.period < n && pf.period < s + l)
  {
    hide IsRun;
    hide Recovers;
    hide Fresh;
    RunFollows(pf, w, nodes, log);
    RecoversIff(pf, w, nodes, log, n, s);
    assert Caught(w[0], log, n, s, 0);
    var h: nat :| s + h <= n && WatchedAt(w[0], log, s, 0, h);
    PeriodicWatches(pf, w, nodes, log, s + h - 1);
  }

  // ----- the attacker that tests a bitwise and -----

  ghost function PowerOfTwo(b: nat): (p: nat)
    ensures p > 0
  {
    if b == 0 then 1 else 2 * PowerOfTwo(b - 1)
  }

  /** Bit b of x. */
  ghost predicate Bit(x: nat, b: nat) {
    x / PowerOfTwo(b) % 2 == 1
  }

  ghost predicate NoCommonBit(t: nat, period: nat) {
    forall b: nat :: Bit(period, b) ==> !Bit(t, b)
  }

  /** Halving b times is dividing by 2^b. */
  lemma DivTwice(t: nat, p: nat)
    requires p > 0
    ensures t / (2 * p) == t / 2 / p
  {
    var q := t / 2 / p;
    var i := t / 2 - q * p;
    assert t / 2 == q * p + i && 0 <= i < p;
    var j := 2 * i + t % 2;
    assert t == q * (2 * p) + j && 0 <= j < 2 * p by {
      assert q * (2 * p) == 2 * (q * p);
    }
    DivUnique(t, 2 * p, q, j);
  }

  lemma BitOfHalf(x: nat, b: nat)
    requires b > 0
    ensures Bit(x, b) <==> Bit(x / 2, b - 1)
  {
    DivTwice(x, PowerOfTwo(b - 1));
  }

  lemma BitOfZero(b: nat)
    ensures !Bit(0, b)
  {
    DivUnique(0, PowerOfTwo(b), 0, 0);
  }

  lemma LowestBit(x: nat)
    ensures Bit(x, 0) <==> x % 2 == 1
  {
    assert PowerOfTwo(0) == 1;
  }

  lemma {:induction false} BitAndIsZeroIff(t: nat, period: nat)
    ensures BitAnd(t, period) == 0 <==> NoCommonBit(t, period)
  {
    hide PowerOfTwo;
    hide Bit;
    if t == 0 || period == 0 {
      forall b: nat ensures Bit(period, b) ==> !Bit(t, b) {
        BitOfZero(b);
      }
    } else {
      BitAndIsZeroIff(t / 2, period / 2);
      LowestBit(t);
      LowestBit(period);
      forall b: nat | b > 0 ensures Bit(t, b) == Bit(t / 2, b - 1) && Bit(period, b) == Bit(period / 2, b - 1) {
        BitOfHalf(t, b);
        BitOfHalf(period, b);
      }
      assert forall b: nat :: Bit(t / 2, b) == Bit(t, b + 1) && Bit(period / 2, b) == Bit(period, b + 1);
    }
  }

  /** The one-node-per-path attacker re-selects exactly in the steps that have none of the hop period's bits. */
  lemma OneNodeSelects(pf: Profile, w: World, nodes: set<NodeId>, since: nat, log: seq<Watch>, i: nat)
    requires Follows(pf, w, nodes, since, log) && pf.strategy.OneNodePerPath? && i + 1 < |log|
    ensures if NoCommonBit(since + i + 1, pf.period) then Hops(pf, w[0].spec, nodes, log, i) else Rests(log, i)
  {
    hide SampledOnePerPath;
    hide NoCommonBit;
    assert WatchStep(pf, w, nodes, since + i + 1, log[i], log[i + 1]);
    BitAndIsZeroIff(since + i + 1, pf.period);
  }

  /** On creation it selects only if the hop period is even. */
  lemma OneNodeStarts(pf: Profile, w: World, nodes: set<NodeId>, since: nat, log: seq<Watch>)
    requires Follows(pf, w, nodes, since, log) && pf.strategy.OneNodePerPath?
    ensures Starts(pf, w[0].spec, nodes, log[0], pf.period % 2 == 0)
  {
    hide SampledOnePerPath;
    assert BitAnd(0, pf.period / 2) == 0;
    assert BitAnd(1, pf.period) == pf.period % 2;
  }

  lemma {:induction false} CommonWithItself(period: nat)
    requires period > 0
    ensures !NoCommonBit(period, period)
  {
    hide Bit;
    hide PowerOfTwo;
    LowestBit(period);
    if period % 2 == 0 {
      CommonWithItself(period / 2);
      var b: nat :| Bit(period / 2, b);
      BitOfHalf(period, b + 1);
    }
  }

  /** So for no hop period does it do what the others do: in step `period` they re-select, and it does not. */
  lemma OneNodeSkipsItsPeriod(pf: Profile, w: World, nodes: set<NodeId>, log: seq<Watch>)
    requires Follows(pf, w, nodes, 0, log) && pf.strategy.OneNodePerPath? && pf.period < |log|
    ensures Rests(log, pf.period - 1)
  {
    hide NoCommonBit;
    OneNodeSelects(pf, w, nodes, 0, log, pf.period - 1);
    CommonWithItself(pf.period);
  }

  lemma {:induction false} BitAndRepeats(t: nat, period: nat, b: nat)
    requires period < PowerOfTwo(b)
    ensures BitAnd(t + PowerOfTwo(b), period) == BitAnd(t, period)
  {
    if b > 0 && period > 0 {
      assert (t + PowerOfTwo(b)) / 2 == t / 2 + PowerOfTwo(b - 1);
      BitAndRepeats(t / 2, period / 2, b - 1);
    }
  }

  /** Its timing repeats after any power of two above the hop period. */
  lemma OneNodeRepeats(pf: Profile, w: World, nodes: set<NodeId>, log: seq<Watch>, i: nat, b: nat)
    requires Follows(pf, w, nodes, 0, log) && pf.strategy.OneNodePerPath? && pf.period < PowerOfTwo(b)
    requires i + PowerOfTwo(b) + 1 < |log|
    ensures log[i + 1].hopCount == log[i].hopCount + 1 <==>
            log[i + PowerOfTwo(b) + 1].hopCount == log[i + PowerOfTwo(b)].hopCount + 1
  {
    hide NoCommonBit;
    hide Fresh;
    var j := i + PowerOfTwo(b);
    OneNodeSelects(pf, w, nodes, 0, log, i);
    OneNodeSelects(pf, w, nodes, 0, log, j);
    BitAndRepeats(i + 1, pf.period, b);
    BitAndIsZeroIff(i + 1, pf.period);
    BitAndIsZeroIff(j + 1, pf.period);
  }

  lemma {:induction false} OneBit(t: nat, b: nat)
    ensures BitAnd(t, PowerOfTwo(b)) == 0 <==> t / PowerOfTwo(b) % 2 == 0
  {
    if b == 0 {
      assert BitAnd(t / 2, 0) == 0;
    } else {
      OneBit(t / 2, b - 1);
      DivTwice(t, PowerOfTwo(b - 1));
    }
  }

  /** With hop period 2^b it re-selects in the steps t with t / 2^b even: in every step of one block of 2^b steps, and
      in none of the next. */
  lemma OneNodeTiming(pf: Profile, w: World, nodes: set<NodeId>, log: seq<Watch>, i: nat, b: nat)
    requires Follows(pf, w, nodes, 0, log) && pf.strategy.OneNodePerPath? && pf.period == PowerOfTwo(b)
    requires i + 1 < |log|
    ensures log[i + 1].hopCount == log[i].hopCount + 1 <==> (i + 1) / PowerOfTwo(b) % 2 == 0
  {
    hide NoCommonBit;
    hide Fresh;
    OneNodeSelects(pf, w, nodes, 0, log, i);
    OneBit(i + 1, b);
    BitAndIsZeroIff(i + 1, pf.period);
  }

  /** It has selected by step i. */
  ghost predicate SelectedBy(period: nat, i: nat) {
    period % 2 == 0 || exists t: nat :: 1 <= t <= i && NoCommonBit(t, period)
  }

  /** Until its first selection it watches nothing, and from then on a node on each of k paths. */
  lemma {:induction false} OneNodeWatches(pf: Profile, w: World, nodes: set<NodeId>, log: seq<Watch>, i: nat)
    requires Follows(pf, w, nodes, 0, log) && pf.strategy.OneNodePerPath? && i < |log|
    ensures if SelectedBy(pf.period, i) then SampledOnePerPath(w[0].spec.paths, pf.k, log[i].monitored)
            else log[i].monitored == {}
  {
    hide IsRunSince;
    hide SampledOnePerPath;
    hide NoCommonBit;
    if i == 0 {
      OneNodeStarts(pf, w, nodes, 0, log);
    } else {
      OneNodeWatches(pf, w, nodes, log, i - 1);
      OneNodeSelects(pf, w, nodes, 0, log, i - 1);
    }
  }

  lemma EveryMiddle(v: View, k: nat, m: set<NodeId>, q: nat)
    requires v.Valid() && k == v.spec.k == |v.spec.paths| && SampledOnePerPath(v.spec.paths, k, m)
    requires q < k && |v.spec.paths[q]| == 3
    ensures v.spec.paths[q][1] in m
  {
    var c, hops :| IsChoice(c, k, k) && OnePerPath(v.spec.paths, c, hops, m);
    ChoiceIsAll(c, k);
    assert q in c;
    var i :| 0 <= i < |c| && c[i] == q;
    assert v.spec.paths[c[i]][hops[i]] in m;
  }

  /** When all paths are active, with one interior node each, it recovers every message sent after its first
      selection. */
  lemma OneNodeOnAll(pf: Profile, w: World, nodes: set<NodeId>, log: seq<Watch>, n: nat, s: nat)
    requires OneFlow(pf, w) && IsRun(pf, w, nodes, log) && pf.strategy.OneNodePerPath? && pf.k == |w[0].spec.paths|
    requires forall q :: 0 <= q < |w[0].spec.paths| ==> |w[0].spec.paths[q]| == 3
    requires n < |log| && n <= w[0].sent && s < n
    ensures Recovers(pf.k, log[n].captured, s) <==> SelectedBy(pf.period, s)
  {
    hide IsRun;
    hide Recovers;
    hide SelectedBy;
    hide SampledOnePerPath;
    RunFollows(pf, w, nodes, log);
    RecoversIff(pf, w, nodes, log, n, s);
    OneNodeWatches(pf, w, nodes, log, s);
    var v := w[0];
    if SelectedBy(pf.period, s) {
      forall j | 0 <= j < pf.k ensures Caught(v, log, n, s, j) {
        EveryMiddle(v, pf.k, log[s].monitored, v.history[s][j]);
        assert WatchedAt(v, log, s, j, 1);
      }
    } else {
      assert !Caught(v, log, n, s, 0);
    }
  }

  // ----- the others -----

  /** The fixed attacker selects once, the planned and the total one count no hops. */
  lemma {:induction false} OtherHopCounts(
      pf: Profile, w: World, nodes: set<NodeId>, since: nat, log: seq<Watch>, i: nat)
    requires Follows(pf, w, nodes, since, log) && i < |log|
    requires pf.strategy.Fixed? || pf.strategy.Planned? || pf.strategy.Total?
    ensures log[i].hopCount == if pf.strategy.Fixed? then 1 else 0
    ensures pf.strategy.Fixed? ==> log[i].prepared
  {
    if i > 0 {
      OtherHopCounts(pf, w, nodes, since, log, i - 1);
      assert WatchStep(pf, w, nodes, since + (i - 1) + 1, log[i - 1], log[i - 1 + 1]);
    }
  }
}
