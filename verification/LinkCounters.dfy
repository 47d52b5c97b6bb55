/** Link utilization from byte counters.  A monitor takes snapshots of the bytes sent on every interface; the
    difference of two snapshots, summed over both directions of a link, is the link's traffic in between. */
module LinkCounters {
  import opened Basics
  import opened ParallelGraph

  datatype Stat = Stat(source: NodeId, destination: NodeId, sent: int)

  type Snapshot = seq<Stat>

  // ----- one interval -----

  function Matching(t: Snapshot, source: NodeId, destination: NodeId): seq<Stat> {
    if t == [] then []
    else
      var n := |t| - 1;
      Matching(t[..n], source, destination) +
      if t[n].source == source && t[n].destination == destination then [t[n]] else []
  }

  /** The counter of an interface, unless the snapshot lacks it or has it several times. */
  function Reading(t: Snapshot, source: NodeId, destination: NodeId): Option<int> {
    var found := Matching(t, source, destination);
    if |found| == 1 then Some(found[0].sent) else None
  }

  /** How much an interface sent until the next snapshot; nothing if it is not found there. */
  function Growth(stat: Stat, next: Snapshot): int {
    match Reading(next, stat.source, stat.destination)
    case Some(sent) => sent - stat.sent
    case None => 0
  }

  function KeyOf(stat: Stat): Link {
    LinkOf(stat.source, stat.destination)
  }

  /** The growth of all interfaces of a link. */
  ghost function LinkGrowth(t0: Snapshot, t1: Snapshot, key: Link): int {
    if t0 == [] then 0
    else
      var n := |t0| - 1;
      LinkGrowth(t0[..n], t1, key) + if KeyOf(t0[n]) == key then Growth(t0[n], t1) else 0
  }

  ghost function Keys(t: Snapshot): set<Link> {
    set stat | stat in t :: KeyOf(stat)
  }

  /** The byte count of every link of the first snapshot, up to the second. */
  method ByteCountDelta(t0: Snapshot, t1: Snapshot) returns (delta: map<Link, int>)
    ensures delta.Keys == Keys(t0)
    ensures forall key :: key in delta ==> delta[key] == LinkGrowth(t0, t1, key)
  {
    delta := map[];
    for i := 0 to |t0|
      invariant delta.Keys == Keys(t0[..i])
      invariant forall key :: (if key in delta then delta[key] else 0) == LinkGrowth(t0[..i], t1, key)
    {
      assert t0[..i + 1][..i] == t0[..i] && t0[..i + 1] == t0[..i] + [t0[i]];
      assert Keys(t0[..i + 1]) == Keys(t0[..i]) + {KeyOf(t0[i])};
      var key := KeyOf(t0[i]);
      delta := delta[key := (if key in delta then delta[key] else 0) + Growth(t0[i], t1)];
    }
    assert t0[..|t0|] == t0;
  }

  /** Bytes in ten seconds as megabits per second. */
  function TxRate(bytes: int): real {
    bytes as real * 8.0 / 10.0 / 1048576.0
  }

  /** The utilization of the links of one interval. */
  ghost predicate IsUtilization(t0: Snapshot, t1: Snapshot, rates: map<Link, real>) {
    && rates.Keys == Keys(t0)
    && forall key :: key in rates ==> rates[key] * 10.0 * 1048576.0 == 8.0 * LinkGrowth(t0, t1, key) as real
  }

  /** The bits that every link's interfaces sent between two snapshots, in units of 2^20 per second of ten. */
  method ComputeLinkUtilizationOverTime(counts: seq<Snapshot>) returns (rates: seq<map<Link, real>>)
    ensures |rates| == if counts == [] then 0 else |counts| - 1
    ensures forall t :: 0 <= t < |rates| ==> IsUtilization(counts[t], counts[t + 1], rates[t])
    ensures forall t :: 0 <= t < |rates| ==> rates[t].Keys == Keys(counts[t])
    ensures forall t, key :: 0 <= t < |rates| && key in rates[t] ==>
              rates[t][key] * 10.0 * 1048576.0 == 8.0 * LinkGrowth(counts[t], counts[t + 1], key) as real
  {
    rates := [];
    if counts == [] {
      return;
    }
    for t := 0 to |counts| - 1
      invariant |rates| == t
      invariant forall z :: 0 <= z < t ==> IsUtilization(counts[z], counts[z + 1], rates[z])
      invariant forall z :: 0 <= z < t ==> rates[z].Keys == Keys(counts[z])
    {
      var delta := ByteCountDelta(counts[t], counts[t + 1]);
      rates := rates + [map key | key in delta :: TxRate(delta[key])];
    }
  }

  // ----- the mean -----

  /** Total growth of a link over the first n intervals, and how many of them the link appears in. */
  ghost function TotalGrowth(counts: seq<Snapshot>, key: Link, n: nat): int
    requires n < |counts|
  {
    if n == 0 then 0 else TotalGrowth(counts, key, n - 1) + LinkGrowth(counts[n - 1], counts[n], key)
  }

  ghost function Appearances(counts: seq<Snapshot>, key: Link, n: nat): nat
    requires n < |counts|
  {
    if n == 0 then 0 else Appearances(counts, key, n - 1) + if key in Keys(counts[n - 1]) then 1 else 0
  }

  lemma {:induction false} AbsentDoesNotGrow(t0: Snapshot, t1: Snapshot, key: Link)
    requires key !in Keys(t0)
    ensures LinkGrowth(t0, t1, key) == 0
  {
    if t0 != [] {
      var n := |t0| - 1;
      assert t0[n] in t0;
      AbsentDoesNotGrow(t0[..n], t1, key);
    }
  }

  /** The mean of the rates of one link, over the intervals in which it appears. */
  method MeanOf(counts: seq<Snapshot>, rates: seq<map<Link, real>>, key: Link) returns (mean: real)
    requires counts != [] && |rates| == |counts| - 1
    requires forall t :: 0 <= t < |rates| ==> IsUtilization(counts[t], counts[t + 1], rates[t])
    requires Appearances(counts, key, |counts| - 1) > 0
    ensures mean * Appearances(counts, key, |counts| - 1) as real * 10.0 * 1048576.0
            == 8.0 * TotalGrowth(counts, key, |counts| - 1) as real
  {
    hide LinkGrowth;
    hide Keys;
    var sum, n := 0.0, 0;
    for t := 0 to |rates|
      invariant n == Appearances(counts, key, t) && sum * 10.0 * 1048576.0 == 8.0 * TotalGrowth(counts, key, t) as real
    {
      assert IsUtilization(counts[t], counts[t + 1], rates[t]);
      if key in rates[t] {
        sum, n := sum + rates[t][key], n + 1;
      } else {
        AbsentDoesNotGrow(counts[t], counts[t + 1], key);
      }
    }
    mean := sum / n as real;
  }

  lemma {:induction false} AppearsSomewhere(counts: seq<Snapshot>, key: Link, t: nat, n: nat)
    requires t < n < |counts| && key in Keys(counts[t])
    ensures Appearances(counts, key, n) > 0
  {
    if t < n - 1 {
      AppearsSomewhere(counts, key, t, n - 1);
    }
  }

  method CollectAllLinkKeys(rates: seq<map<Link, real>>) returns (keys: set<Link>)
    ensures forall key :: key in keys <==> exists t :: 0 <= t < |rates| && key in rates[t]
  {
    keys := {};
    for t := 0 to |rates|
      invariant forall key :: key in keys <==> exists z :: 0 <= z < t && key in rates[z]
    {
      keys := keys + rates[t].Keys;
    }
  }

  /** The mean utilization of every link: times the number of intervals in which the link appears, it is the
      link's total growth in bits, in units of 2^20 per second of ten. */
  method ComputeMeanLinkUtilization(counts: seq<Snapshot>) returns (means: map<Link, real>)
    ensures counts == [] ==> means == map[]
    ensures forall key :: key in means <==> exists t :: 0 <= t < |counts| - 1 && key in Keys(counts[t])
    ensures forall key :: key in means ==> MeanIsExact(counts, key, means[key])
  {
    hide Keys;
    hide IsUtilization;
    hide MeanIsExact;
    hide Appearances;
    hide TotalGrowth;
    var rates := ComputeLinkUtilizationOverTime(counts);
    var keys := CollectAllLinkKeys(rates);
    means := map[];
    var rest := keys;
    while rest != {}
      invariant rest <= keys && means.Keys == keys - rest
      invariant forall key :: key in means ==> MeanIsExact(counts, key, means[key])
      decreases rest
    {
      var key :| key in rest;
      ghost var t :| 0 <= t < |rates| && key in rates[t];
      AppearsSomewhere(counts, key, t, |counts| - 1);
      var mean := MeanOf(counts, rates, key);
      Exactly(counts, key, mean);
      means := means[key := mean];
      rest := rest - {key};
    }
    forall key ensures key in means <==> exists t :: 0 <= t < |counts| - 1 && key in Keys(counts[t]) {
      assert key in means <==> exists t :: 0 <= t < |rates| && key in rates[t];
      assert forall t :: 0 <= t < |rates| ==> (key in rates[t] <==> key in Keys(counts[t]));
    }
  }

  /** The bytes that a mean stands for, over the intervals in which the link appears. */
  ghost function Reported(counts: seq<Snapshot>, key: Link, mean: real): real
    requires counts != []
  {
    mean * Appearances(counts, key, |counts| - 1) as real * 10.0 * 1048576.0 / 8.0
  }

  ghost predicate MeanIsExact(counts: seq<Snapshot>, key: Link, mean: real) {
    && counts != [] && Appearances(counts, key, |counts| - 1) > 0
    && mean * Appearances(counts, key, |counts| - 1) as real * 10.0 * 1048576.0
       == 8.0 * TotalGrowth(counts, key, |counts| - 1) as real
  }

  lemma Exactly(counts: seq<Snapshot>, key: Link, mean: real)
    requires counts != [] && Appearances(counts, key, |counts| - 1) > 0
    requires mean * Appearances(counts, key, |counts| - 1) as real * 10.0 * 1048576.0
             == 8.0 * TotalGrowth(counts, key, |counts| - 1) as real
    ensures MeanIsExact(counts, key, mean)
  {
  }

  lemma ExactBytes(counts: seq<Snapshot>, key: Link, mean: real)
    requires counts != [] && MeanIsExact(counts, key, mean)
    ensures Reported(counts, key, mean) == TotalGrowth(counts, key, |counts| - 1) as real
  {
  }

  // ----- telescoping -----

  ghost function DirectedGrowth(t0: Snapshot, t1: Snapshot, u: NodeId, v: NodeId): int {
    if t0 == [] then 0
    else
      var n := |t0| - 1;
      DirectedGrowth(t0[..n], t1, u, v) + if t0[n].source == u && t0[n].destination == v then Growth(t0[n], t1) else 0
  }

  /** A link grows by what its two directions grow; a link from a switch to itself has one. */
  lemma {:induction false} BothDirections(t0: Snapshot, t1: Snapshot, u: NodeId, v: NodeId)
    ensures LinkGrowth(t0, t1, LinkOf(u, v)) ==
            DirectedGrowth(t0, t1, u, v) + if u == v then 0 else DirectedGrowth(t0, t1, v, u)
  {
    if t0 != [] {
      var n := |t0| - 1;
      BothDirections(t0[..n], t1, u, v);
      if KeyOf(t0[n]) == LinkOf(u, v) {
        LinkEnds(t0[n].source, t0[n].destination, u, v);
      }
    }
  }

  /** The difference of two readings, where both are there. */
  function Step(a: Option<int>, b: Option<int>): int {
    if a.Some? && b.Some? then b.value - a.value else 0
  }

  /** How far the listed counters are below `sent`, added up. */
  ghost function Shortfall(stats: seq<Stat>, sent: int): int {
    if stats == [] then 0 else Shortfall(stats[..|stats| - 1], sent) + sent - stats[|stats| - 1].sent
  }

  /** What is counted for an interface that a snapshot lists several times: the growth of every copy. */
  ghost function Repeated(t0: Snapshot, t1: Snapshot, u: NodeId, v: NodeId): int {
    var copies, next := Matching(t0, u, v), Reading(t1, u, v);
    if |copies| >= 2 && next.Some? then Shortfall(copies, next.value) else 0
  }

  lemma {:induction false} GrowthOfCopies(t0: Snapshot, t1: Snapshot, u: NodeId, v: NodeId)
    ensures var next := Reading(t1, u, v);
            DirectedGrowth(t0, t1, u, v) == if next.Some? then Shortfall(Matching(t0, u, v), next.value) else 0
  {
    hide Reading;
    if t0 != [] {
      var n := |t0| - 1;
      var init := Matching(t0[..n], u, v);
      GrowthOfCopies(t0[..n], t1, u, v);
      assert (init + [t0[n]])[..|init|] == init && init + [] == init;
    }
  }

  /** In one interval an interface grows by the difference of its readings, or by that of all copies. */
  lemma GrowthOfMatching(t0: Snapshot, t1: Snapshot, u: NodeId, v: NodeId)
    ensures DirectedGrowth(t0, t1, u, v) == Step(Reading(t0, u, v), Reading(t1, u, v)) + Repeated(t0, t1, u, v)
  {
    hide DirectedGrowth;
    GrowthOfCopies(t0, t1, u, v);
    var copies := Matching(t0, u, v);
    if |copies| == 1 && Reading(t1, u, v).Some? {
      assert Shortfall(copies[..0], Reading(t1, u, v).value) == 0;
    }
  }

  /** The readings of an interface over time. */
  ghost function Readings(counts: seq<Snapshot>, u: NodeId, v: NodeId): (r: seq<Option<int>>)
    ensures |r| == |counts| && forall t :: 0 <= t < |r| ==> r[t] == Reading(counts[t], u, v)
  {
    seq(|counts|, t requires 0 <= t < |counts| => Reading(counts[t], u, v))
  }

  ghost function Steps(r: seq<Option<int>>, n: nat): int
    requires n < |r|
  {
    if n == 0 then 0 else Steps(r, n - 1) + Step(r[n - 1], r[n])
  }

  /** What repeated listings add over the first n intervals. */
  ghost function RepeatedTotal(counts: seq<Snapshot>, u: NodeId, v: NodeId, n: nat): int
    requires n < |counts|
  {
    if n == 0 then 0 else RepeatedTotal(counts, u, v, n - 1) + Repeated(counts[n - 1], counts[n], u, v)
  }

  /** What is counted for an interface over the first n intervals. */
  ghost function Counted(counts: seq<Snapshot>, u: NodeId, v: NodeId, n: nat): int
    requires n < |counts|
  {
    Steps(Readings(counts, u, v), n) + RepeatedTotal(counts, u, v, n)
  }

  lemma {:induction false} GrowthIsCounted(counts: seq<Snapshot>, u: NodeId, v: NodeId, n: nat)
    requires n < |counts|
    ensures TotalGrowth(counts, LinkOf(u, v), n) ==
            Counted(counts, u, v, n) + if u == v then 0 else Counted(counts, v, u, n)
  {
    hide LinkGrowth;
    hide DirectedGrowth;
    hide Matching;
    hide Reading;
    hide Repeated;
    if n > 0 {
      GrowthIsCounted(counts, u, v, n - 1);
      BothDirections(counts[n - 1], counts[n], u, v);
      GrowthOfMatching(counts[n - 1], counts[n], u, v);
      GrowthOfMatching(counts[n - 1], counts[n], v, u);
    }
  }

  /** No snapshot lists the interface twice. */
  ghost predicate NoRepeats(counts: seq<Snapshot>, u: NodeId, v: NodeId) {
    forall t :: 0 <= t < |counts| ==> |Matching(counts[t], u, v)| <= 1
  }

  lemma {:induction false} NothingRepeated(counts: seq<Snapshot>, u: NodeId, v: NodeId, n: nat)
    requires n < |counts| && NoRepeats(counts, u, v)
    ensures RepeatedTotal(counts, u, v, n) == 0
  {
    hide Matching;
    hide Reading;
    if n > 0 {
      NothingRepeated(counts, u, v, n - 1);
      assert |Matching(counts[n - 1], u, v)| <= 1;
    }
  }

  /** The first and the last reading among the first n + 1 snapshots. */
  ghost function FirstSeen(r: seq<Option<int>>, n: nat): Option<int>
    requires n < |r|
  {
    if n == 0 then r[0] else if FirstSeen(r, n - 1).Some? then FirstSeen(r, n - 1) else r[n]
  }

  ghost function LastSeen(r: seq<Option<int>>, n: nat): Option<int>
    requires n < |r|
  {
    if r[n].Some? || n == 0 then r[n] else LastSeen(r, n - 1)
  }

  /** What the counter grew while the interface was missing from the snapshots. */
  ghost function Missed(r: seq<Option<int>>, n: nat): int
    requires n < |r|
  {
    if n == 0 then 0
    else Missed(r, n - 1) + if r[n - 1].None? then Step(LastSeen(r, n - 1), r[n]) else 0
  }

  /** Exactly the growth during drop-outs is lost: what is counted and what is missed make up the difference of
      the last and the first reading. */
  lemma {:induction false} StepsTelescope(r: seq<Option<int>>, n: nat)
    requires n < |r|
    ensures FirstSeen(r, n).Some? <==> LastSeen(r, n).Some?
    ensures Steps(r, n) + Missed(r, n) == Step(FirstSeen(r, n), LastSeen(r, n))
  {
    if n > 0 {
      StepsTelescope(r, n - 1);
    }
  }

  /** Readings never decrease over time. */
  ghost predicate Monotone(r: seq<Option<int>>) {
    forall s, t :: 0 <= s < t < |r| && r[s].Some? && r[t].Some? ==> r[s].value <= r[t].value
  }

  lemma {:induction false} LastSeenIsEarlier(r: seq<Option<int>>, n: nat) returns (t: nat)
    requires n < |r| && LastSeen(r, n).Some?
    ensures t <= n && r[t] == LastSeen(r, n)
  {
    t := n;
    if r[n].None? {
      t := LastSeenIsEarlier(r, n - 1);
    }
  }

  lemma {:induction false} NothingNegativeMissed(r: seq<Option<int>>, n: nat)
    requires n < |r| && Monotone(r)
    ensures Missed(r, n) >= 0
  {
    if n > 0 {
      NothingNegativeMissed(r, n - 1);
      if LastSeen(r, n - 1).Some? {
        var t := LastSeenIsEarlier(r, n - 1);
      }
    }
  }

  lemma {:induction false} AlwaysSeen(r: seq<Option<int>>, n: nat)
    requires n < |r| && forall t :: 0 <= t < |r| ==> r[t].Some?
    ensures FirstSeen(r, n) == r[0] && LastSeen(r, n) == r[n] && Missed(r, n) == 0
  {
    if n > 0 {
      AlwaysSeen(r, n - 1);
    }
  }

  lemma {:induction false} AlwaysAppears(counts: seq<Snapshot>, key: Link, n: nat)
    requires n < |counts| && forall t :: 0 <= t < |counts| ==> key in Keys(counts[t])
    ensures Appearances(counts, key, n) == n
  {
    if n > 0 {
      AlwaysAppears(counts, key, n - 1);
    }
  }

  /** What an interface sent between its first and its last reading. */
  ghost function Difference(counts: seq<Snapshot>, u: NodeId, v: NodeId): int
    requires counts != []
  {
    var r := Readings(counts, u, v);
    Step(FirstSeen(r, |counts| - 1), LastSeen(r, |counts| - 1))
  }

  /** What it sent while missing. */
  ghost function Lost(counts: seq<Snapshot>, u: NodeId, v: NodeId): int
    requires counts != []
  {
    Missed(Readings(counts, u, v), |counts| - 1)
  }

  /** What listing it several times added. */
  ghost function Added(counts: seq<Snapshot>, u: NodeId, v: NodeId): int
    requires counts != []
  {
    RepeatedTotal(counts, u, v, |counts| - 1)
  }

  /** One direction: last minus first, less what was lost, plus what was added. */
  lemma CountedExactly(counts: seq<Snapshot>, u: NodeId, v: NodeId)
    requires counts != []
    ensures Counted(counts, u, v, |counts| - 1) == Difference(counts, u, v) - Lost(counts, u, v) + Added(counts, u, v)
  {
    hide Steps;
    hide FirstSeen;
    hide LastSeen;
    hide Missed;
    hide RepeatedTotal;
    StepsTelescope(Readings(counts, u, v), |counts| - 1);
  }

  /** The readings never decrease, and no snapshot has the interface twice. */
  ghost predicate Orderly(counts: seq<Snapshot>, u: NodeId, v: NodeId) {
    Monotone(Readings(counts, u, v)) && NoRepeats(counts, u, v)
  }

  lemma OrderlyCounts(counts: seq<Snapshot>, u: NodeId, v: NodeId)
    requires counts != [] && Orderly(counts, u, v)
    ensures Lost(counts, u, v) >= 0 && Added(counts, u, v) == 0
  {
    hide Monotone;
    hide NoRepeats;
    hide Readings;
    NothingNegativeMissed(Readings(counts, u, v), |counts| - 1);
    NothingRepeated(counts, u, v, |counts| - 1);
  }

  /** The mean of a link, times the intervals in which it appears, stands for last-minus-first bytes over both
      directions, less exactly what was sent during drop-outs, plus exactly what repeated listings add.  With
      counters that never decrease and are listed once, it is never more than last-minus-first, and it is equal if
      and only if nothing was sent during drop-outs. */
  lemma MeanTelescopes(counts: seq<Snapshot>, u: NodeId, v: NodeId, mean: real)
    requires counts != [] && MeanIsExact(counts, LinkOf(u, v), mean)
    ensures var all := Difference(counts, u, v) + if u == v then 0 else Difference(counts, v, u);
            var lost := Lost(counts, u, v) + if u == v then 0 else Lost(counts, v, u);
            var added := Added(counts, u, v) + if u == v then 0 else Added(counts, v, u);
            var reported := Reported(counts, LinkOf(u, v), mean);
            && reported == (all - lost + added) as real
            && (Orderly(counts, u, v) && Orderly(counts, v, u) ==>
                  reported <= all as real && (reported == all as real <==> lost == 0))
  {
    hide Reported;
    hide TotalGrowth;
    hide Appearances;
    hide Counted;
    hide Difference;
    hide Lost;
    hide Added;
    hide Orderly;
    ExactBytes(counts, LinkOf(u, v), mean);
    GrowthIsCounted(counts, u, v, |counts| - 1);
    CountedExactly(counts, u, v);
    CountedExactly(counts, v, u);
    if Orderly(counts, u, v) && Orderly(counts, v, u) {
      OrderlyCounts(counts, u, v);
      OrderlyCounts(counts, v, u);
    }
  }

  /** When both directions are in every snapshot exactly once, the mean over all intervals is exact. */
  lemma MeanWithoutDropouts(counts: seq<Snapshot>, u: NodeId, v: NodeId, mean: real)
    requires u != v && counts != []
    requires forall t :: 0 <= t < |counts| ==> Reading(counts[t], u, v).Some? && Reading(counts[t], v, u).Some?
    requires MeanIsExact(counts, LinkOf(u, v), mean)
    ensures mean * (|counts| - 1) as real * 10.0 * 1048576.0
            == 8.0 * (Reading(counts[|counts| - 1], u, v).value - Reading(counts[0], u, v).value
                      + Reading(counts[|counts| - 1], v, u).value - Reading(counts[0], v, u).value) as real
  {
    hide TotalGrowth;
    hide Appearances;
    hide Steps;
    hide FirstSeen;
    hide LastSeen;
    hide Missed;
    hide Monotone;
    hide RepeatedTotal;
    hide Keys;
    hide Matching;
    var n := |counts| - 1;
    forall t | 0 <= t < |counts| ensures LinkOf(u, v) in Keys(counts[t]) {
      ReadingIsKey(counts[t], u, v);
    }
    AlwaysAppears(counts, LinkOf(u, v), n);
    AlwaysSeen(Readings(counts, u, v), n);
    AlwaysSeen(Readings(counts, v, u), n);
    NothingRepeated(counts, u, v, n);
    NothingRepeated(counts, v, u, n);
    MeanTelescopes(counts, u, v, mean);
  }

  // ----- inputs on which the mean is not last-minus-first -----

  lemma {:induction false} NeverSeen(r: seq<Option<int>>, n: nat)
    requires n < |r| && forall t :: 0 <= t < |r| ==> r[t].None?
    ensures FirstSeen(r, n).None? && LastSeen(r, n).None? && Missed(r, n) == 0
  {
    if n > 0 {
      NeverSeen(r, n - 1);
    }
  }

  /** A direction that no snapshot lists adds nothing. */
  lemma OtherDirection(counts: seq<Snapshot>, u: NodeId, v: NodeId)
    requires counts != [] && forall t :: 0 <= t < |counts| ==> Matching(counts[t], u, v) == []
    ensures Difference(counts, u, v) == 0 && Lost(counts, u, v) == 0 && Added(counts, u, v) == 0
  {
    hide Matching;
    NeverSeen(Readings(counts, u, v), |counts| - 1);
    NothingRepeated(counts, u, v, |counts| - 1);
  }

  /** The interface is listed twice, and then twice seen once. */
  const TWICE: seq<Snapshot> := [[Stat(0, 1, 0), Stat(0, 1, 0)], [Stat(0, 1, 5)], [Stat(0, 1, 5)]]

  /** The interface drops out, and sends meanwhile. */
  const GAP: seq<Snapshot> := [[Stat(0, 1, 0)], [], [Stat(0, 1, 5)]]

  lemma MatchingOne(stat: Stat, u: NodeId, v: NodeId)
    ensures Matching([stat], u, v) == if stat.source == u && stat.destination == v then [stat] else []
    ensures Matching([stat, stat], u, v) == if stat.source == u && stat.destination == v then [stat, stat] else []
    ensures Matching([], u, v) == []
  {
    assert [stat, stat][..1] == [stat] && [stat][..0] == [];
  }

  lemma RepeatedAmounts()
    ensures Difference(TWICE, 0, 1) == 0 && Lost(TWICE, 0, 1) == 0 && Added(TWICE, 0, 1) == 10
  {
    var twice, later := [Stat(0, 1, 0), Stat(0, 1, 0)], [Stat(0, 1, 5)];
    hide Matching;
    MatchingOne(Stat(0, 1, 0), 0, 1);
    MatchingOne(Stat(0, 1, 5), 0, 1);
    var r := Readings(TWICE, 0, 1);
    assert r == [None, Some(5), Some(5)];
    assert FirstSeen(r, 0) == None && FirstSeen(r, 1) == Some(5) && FirstSeen(r, 2) == Some(5);
    assert LastSeen(r, 2) == Some(5);
    assert Missed(r, 0) == 0 && Missed(r, 1) == 0 && Missed(r, 2) == 0;
    assert Shortfall(twice[..0], 5) == 0 && Shortfall(twice[..1], 5) == 5 && Shortfall(twice, 5) == 10;
    assert Repeated(twice, later, 0, 1) == 10 && Repeated(later, later, 0, 1) == 0;
    assert RepeatedTotal(TWICE, 0, 1, 0) == 0 && RepeatedTotal(TWICE, 0, 1, 1) == 10;
  }

  lemma GapAmounts()
    ensures Difference(GAP, 0, 1) == 5 && Lost(GAP, 0, 1) == 5 && Added(GAP, 0, 1) == 0
  {
    hide Matching;
    MatchingOne(Stat(0, 1, 0), 0, 1);
    MatchingOne(Stat(0, 1, 5), 0, 1);
    var r := Readings(GAP, 0, 1);
    assert r == [Some(0), None, Some(5)];
    assert FirstSeen(r, 0) == Some(0) && FirstSeen(r, 1) == Some(0) && FirstSeen(r, 2) == Some(0);
    assert LastSeen(r, 0) == Some(0) && LastSeen(r, 1) == Some(0) && LastSeen(r, 2) == Some(5);
    assert Missed(r, 0) == 0 && Missed(r, 1) == 0 && Missed(r, 2) == 5;
    NothingRepeated(GAP, 0, 1, 2);
  }

  /** Repeated listings put the reported mean above last-minus-first... */
  lemma RepeatsAddUp(mean: real)
    requires MeanIsExact(TWICE, LinkOf(0, 1), mean)
    ensures Reported(TWICE, LinkOf(0, 1), mean) > (Difference(TWICE, 0, 1) + Difference(TWICE, 1, 0)) as real
  {
    hide Difference;
    hide Lost;
    hide Added;
    hide Reported;
    hide MeanIsExact;
    MatchingOne(Stat(0, 1, 0), 1, 0);
    MatchingOne(Stat(0, 1, 5), 1, 0);
    OtherDirection(TWICE, 1, 0);
    RepeatedAmounts();
    MeanTelescopes(TWICE, 0, 1, mean);
  }

  /** ... and drop-outs put it below. */
  lemma GapsAreLost(mean: real)
    requires MeanIsExact(GAP, LinkOf(0, 1), mean)
    ensures Reported(GAP, LinkOf(0, 1), mean) < (Difference(GAP, 0, 1) + Difference(GAP, 1, 0)) as real
  {
    hide Difference;
    hide Lost;
    hide Added;
    hide Reported;
    hide MeanIsExact;
    MatchingOne(Stat(0, 1, 0), 1, 0);
    MatchingOne(Stat(0, 1, 5), 1, 0);
    OtherDirection(GAP, 1, 0);
    GapAmounts();
    MeanTelescopes(GAP, 0, 1, mean);
  }

  lemma {:induction false} ReadingIsKey(t: Snapshot, u: NodeId, v: NodeId)
    requires Matching(t, u, v) != []
    ensures LinkOf(u, v) in Keys(t)
  {
    var n := |t| - 1;
    if t[n].source == u && t[n].destination == v {
      assert t[n] in t && KeyOf(t[n]) == LinkOf(u, v);
    } else {
      ReadingIsKey(t[..n], u, v);
    }
  }
}
