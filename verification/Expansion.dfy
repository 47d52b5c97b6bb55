/** Bulk transfers: a solver's allocation of volume per path, request and timeslot becomes a list of rates per
    path and second, beside the background traffic that fills the rest of each path. */
module Expansion {
  import opened Basics
  import opened Products

  const TX_RATE_SCALING_FACTOR := 10000.0

  /** Fifty megabits per second, in bytes. */
  const PATH_VOLUME_PER_SECOND := 50.0 / 8.0 * 1048576.0

  // ----- volume per timeslot -----

  function At(xs: seq<real>, t: nat): real {
    if t < |xs| then xs[t] else 0.0
  }

  /** What the requests allocate in timeslot t. */
  ghost function Allocated(requests: seq<seq<real>>, t: nat): real {
    if requests == [] then 0.0
    else
      var n := |requests| - 1;
      Allocated(requests[..n], t) + At(requests[n], t)
  }

  ghost function Slots(requests: seq<seq<real>>): nat {
    if requests == [] then 0
    else
      var n := |requests| - 1;
      if Slots(requests[..n]) >= |requests[n]| then Slots(requests[..n]) else |requests[n]|
  }

  /** The volumes of the slots are the scaled allocations. */
  ghost predicate Covers(requests: seq<seq<real>>, volumes: seq<real>) {
    && |volumes| == Slots(requests)
    && forall t :: 0 <= t < |volumes| ==> volumes[t] == 10000.0 * Allocated(requests, t)
  }

  /** Adds one request to the volumes, slot by slot; slots it is the first to use are appended. */
  method AddRequest(request: seq<real>, volumes: seq<real>) returns (r: seq<real>)
    ensures |r| == if |volumes| >= |request| then |volumes| else |request|
    ensures forall t :: 0 <= t < |r| ==> r[t] == At(volumes, t) + At(request, t) * 10000.0
  {
    r := volumes;
    for t := 0 to |request|
      invariant |r| == if |volumes| >= t then |volumes| else t
      invariant forall z :: 0 <= z < |r| ==> r[z] == At(volumes, z) + At(request[..t], z) * TX_RATE_SCALING_FACTOR
    {
      var added := TX_RATE_SCALING_FACTOR * request[t];
      if t < |r| {
        r := r[t := r[t] + added];
      } else {
        r := r + [0.0 + added];
      }
    }
  }

  lemma {:induction false} BeyondSlots(requests: seq<seq<real>>, t: nat)
    requires t >= Slots(requests)
    ensures Allocated(requests, t) == 0.0
  {
    if requests != [] {
      BeyondSlots(requests[..|requests| - 1], t);
    }
  }

  method PrunePath(requests: seq<seq<real>>) returns (volumes: seq<real>)
    ensures Covers(requests, volumes)
  {
    volumes := [];
    for i := 0 to |requests|
      invariant Covers(requests[..i], volumes)
    {
      ghost var before := volumes;
      volumes := AddRequest(requests[i], volumes);
      assert requests[..i + 1][..i] == requests[..i];
      forall t | 0 <= t < |volumes| ensures volumes[t] == 10000.0 * Allocated(requests[..i + 1], t) {
        if t >= |before| {
          BeyondSlots(requests[..i], t);
        }
      }
    }
    assert requests[..|requests|] == requests;
  }

  method PruneFlowAllocationsList(allocations: seq<seq<seq<real>>>) returns (volumes: seq<seq<real>>)
    ensures |volumes| == |allocations| && forall p :: 0 <= p < |volumes| ==> Covers(allocations[p], volumes[p])
  {
    volumes := [];
    for p := 0 to |allocations|
      invariant |volumes| == p && forall q :: 0 <= q < p ==> Covers(allocations[q], volumes[q])
    {
      var path := PrunePath(allocations[p]);
      volumes := volumes + [path];
    }
  }

  // ----- rates per second -----

  /** Every rate, `duration` times. */
  function Spread(rates: seq<real>, duration: nat): seq<real> {
    if rates == [] then [] else Spread(rates[..|rates| - 1], duration) + Repeat(rates[|rates| - 1], duration)
  }

  /** Second i of timeslot t. */
  lemma {:induction false} SpreadAt(rates: seq<real>, duration: nat, t: nat, i: nat)
    requires t < |rates| && i < duration
    ensures |Spread(rates, duration)| == Times(|rates|, duration)
    ensures Times(t, duration) + i < |Spread(rates, duration)|
    ensures Spread(rates, duration)[Times(t, duration) + i] == rates[t]
  {
    var n := |rates| - 1;
    SpreadSize(rates, duration);
    SpreadSize(rates[..n], duration);
    if t < n {
      SpreadAt(rates[..n], duration, t, i);
    }
  }

  lemma {:induction false} SpreadSize(rates: seq<real>, duration: nat)
    ensures |Spread(rates, duration)| == Times(|rates|, duration)
  {
    if rates != [] {
      SpreadSize(rates[..|rates| - 1], duration);
    }
  }

  function Part(volume: real, duration: nat): real
    requires duration > 0
  {
    volume / duration as real
  }

  function Remainder(capacity: real, duration: nat): real
    requires duration > 0
  {
    PATH_VOLUME_PER_SECOND - Part(capacity * TX_RATE_SCALING_FACTOR, duration)
  }

  /** Each volume divided over the seconds of its slot. */
  ghost function PerSecond(volumes: seq<real>, duration: nat): (r: seq<real>)
    requires duration > 0
    ensures |r| == |volumes| && forall t :: 0 <= t < |r| ==> r[t] == Part(volumes[t], duration)
  {
    seq(|volumes|, t requires 0 <= t < |volumes| => Part(volumes[t], duration))
  }

  /** What background traffic leaves of the path in each slot is its remaining capacity. */
  ghost function Background(capacities: seq<real>, duration: nat): (r: seq<real>)
    requires duration > 0
    ensures |r| == |capacities|
    ensures forall t :: 0 <= t < |r| ==> r[t] == Remainder(capacities[t], duration)
  {
    seq(|capacities|, t requires 0 <= t < |capacities| => Remainder(capacities[t], duration))
  }

  method BulkRates(volumes: seq<real>, duration: nat) returns (rates: seq<real>)
    requires duration > 0
    ensures rates == Spread(PerSecond(volumes, duration), duration)
  {
    hide Part;
    hide Remainder;
    rates := [];
    for t := 0 to |volumes|
      invariant rates == Spread(PerSecond(volumes[..t], duration), duration)
    {
      assert PerSecond(volumes[..t + 1], duration)[..t] == PerSecond(volumes[..t], duration);
      rates := rates + Repeat(Part(volumes[t], duration), duration);
    }
    assert volumes[..|volumes|] == volumes;
  }

  method BackgroundRates(capacities: seq<real>, duration: nat) returns (rates: seq<real>)
    requires duration > 0
    ensures rates == Spread(Background(capacities, duration), duration)
  {
    hide Part;
    hide Remainder;
    rates := [];
    for t := 0 to |capacities|
      invariant rates == Spread(Background(capacities[..t], duration), duration)
    {
      assert Background(capacities[..t + 1], duration)[..t] == Background(capacities[..t], duration);
      rates := rates + Repeat(Remainder(capacities[t], duration), duration);
    }
    assert capacities[..|capacities|] == capacities;
  }

  // ----- conservation and fit -----

  lemma {:induction false} SumOfRepeat(x: real, n: nat)
    ensures Sum(Repeat(x, n)) == Copies(n, x)
  {
    if n > 0 {
      SumOfRepeat(x, n - 1);
      assert Repeat(x, n)[..n - 1] == Repeat(x, n - 1);
      SumLast(Repeat(x, n));
    }
  }

  lemma PartsMakeWhole(volume: real, duration: nat)
    requires duration > 0
    ensures Copies(duration, Part(volume, duration)) == volume
  {
    CopiesIsProduct(duration, Part(volume, duration));
  }

  /** The rates of all seconds add up to the volume of all slots. */
  lemma {:induction false} SpreadConserves(volumes: seq<real>, duration: nat)
    requires duration > 0
    ensures Sum(Spread(PerSecond(volumes, duration), duration)) == Sum(volumes)
  {
    hide Part;
    if volumes != [] {
      var n := |volumes| - 1;
      var rate := Part(volumes[n], duration);
      SpreadConserves(volumes[..n], duration);
      assert PerSecond(volumes, duration)[..n] == PerSecond(volumes[..n], duration);
      SumConcat(Spread(PerSecond(volumes[..n], duration), duration), Repeat(rate, duration));
      SumOfRepeat(rate, duration);
      SumLast(volumes);
      PartsMakeWhole(volumes[n], duration);
    }
  }

  /** The total of the allocations of a path. */
  ghost function PathTotal(requests: seq<seq<real>>): real {
    if requests == [] then 0.0 else PathTotal(requests[..|requests| - 1]) + Sum(requests[|requests| - 1])
  }

  /** The slots t < n of one request. */
  ghost function AllocatedBelow(requests: seq<seq<real>>, n: nat): real {
    if n == 0 then 0.0 else AllocatedBelow(requests, n - 1) + Allocated(requests, n - 1)
  }

  /** Summing by slot is summing by request. */
  lemma {:induction false} SlotsOrRequests(requests: seq<seq<real>>, n: nat)
    requires n >= Slots(requests)
    ensures AllocatedBelow(requests, n) == PathTotal(requests)
  {
    if requests == [] {
      NothingAllocated(requests, n);
    } else {
      var m := |requests| - 1;
      SlotsOrRequests(requests[..m], n);
      LastRequest(requests, n);
      assert requests[m][..|requests[m]|] == requests[m];
    }
  }

  lemma {:induction false} NothingAllocated(requests: seq<seq<real>>, n: nat)
    requires requests == []
    ensures AllocatedBelow(requests, n) == 0.0
  {
    if n > 0 {
      NothingAllocated(requests, n - 1);
    }
  }

  lemma {:induction false} LastRequest(requests: seq<seq<real>>, n: nat)
    requires requests != []
    ensures var m := |requests| - 1;
            var last := requests[m];
            var part := if n <= |last| then last[..n] else last;
            AllocatedBelow(requests, n) == AllocatedBelow(requests[..m], n) + Sum(part)
  {
    var last := requests[|requests| - 1];
    if n > 0 {
      LastRequest(requests, n - 1);
      if n <= |last| {
        assert last[..n][..n - 1] == last[..n - 1];
        SumLast(last[..n]);
      } else if n - 1 == |last| {
        assert last[..n - 1] == last;
      }
    }
  }

  lemma {:induction false} VolumesAreAllocations(requests: seq<seq<real>>, volumes: seq<real>, n: nat)
    requires Covers(requests, volumes) && n <= |volumes|
    ensures Sum(volumes[..n]) == 10000.0 * AllocatedBelow(requests, n)
  {
    if n > 0 {
      VolumesAreAllocations(requests, volumes, n - 1);
      assert volumes[..n][..n - 1] == volumes[..n - 1];
      SumLast(volumes[..n]);
    }
  }

  /** Volume is preserved: per second and path, bulk traffic adds up to the scaled total of the allocations,
      whether or not the requests have equally many timeslots. */
  lemma VolumePreserved(requests: seq<seq<real>>, volumes: seq<real>, duration: nat)
    requires Covers(requests, volumes) && duration > 0
    ensures Sum(Spread(PerSecond(volumes, duration), duration)) == 10000.0 * PathTotal(requests)
  {
    SpreadConserves(volumes, duration);
    VolumesAreAllocations(requests, volumes, |volumes|);
    assert volumes[..|volumes|] == volumes;
    SlotsOrRequests(requests, |volumes|);
  }

  ghost function CubeTotal(allocations: seq<seq<seq<real>>>): real {
    if allocations == [] then 0.0
    else
      var n := |allocations| - 1;
      CubeTotal(allocations[..n]) + PathTotal(allocations[n])
  }

  ghost function BulkTotal(volumes: seq<seq<real>>, duration: nat): real
    requires duration > 0
  {
    if volumes == [] then 0.0
    else
      var n := |volumes| - 1;
      BulkTotal(volumes[..n], duration) + Sum(Spread(PerSecond(volumes[n], duration), duration))
  }

  /** The same over all paths of the trial. */
  lemma {:induction false} TrialVolumePreserved(
      allocations: seq<seq<seq<real>>>, volumes: seq<seq<real>>, duration: nat)
    requires |volumes| == |allocations| && duration > 0
    requires forall p :: 0 <= p < |volumes| ==> Covers(allocations[p], volumes[p])
    ensures BulkTotal(volumes, duration) == 10000.0 * CubeTotal(allocations)
  {
    hide Spread;
    hide PathTotal;
    if volumes != [] {
      var n := |volumes| - 1;
      TrialVolumePreserved(allocations[..n], volumes[..n], duration);
      VolumePreserved(allocations[n], volumes[n], duration);
    }
  }

  lemma Divided(a: real, b: real, duration: nat)
    requires duration > 0
    ensures a / duration as real <= b / duration as real <==> a <= b
  {
    var d := duration as real;
    assert a == (a / d) * d && b == (b / d) * d;
    Ordered(a / d, b / d, d);
  }

  lemma Ordered(a: real, b: real, d: real)
    requires d > 0.0
    ensures a * d <= b * d <==> a <= b
  {
    if a > b {
      assert (a - b) * d > 0.0;
    } else {
      assert (b - a) * d >= 0.0;
    }
  }

  /** One second of a slot. */
  lemma OneSecond(volume: real, capacity: real, duration: nat)
    requires duration > 0
    ensures Part(volume, duration) * duration as real == volume
    ensures (6553600.0 - Remainder(capacity, duration)) * duration as real == 10000.0 * capacity
    ensures Part(volume, duration) + Remainder(capacity, duration) <= 6553600.0 <==> volume <= 10000.0 * capacity
  {
    Divided(volume, 10000.0 * capacity, duration);
  }

  /** In every second of timeslot t bulk traffic sends its part of the scaled allocation, and background traffic what
      the scaled remaining capacity leaves of fifty megabits; so together they fit the path if and only if the
      allocations of the slot fit the remaining capacity. */
  lemma FitsIff(requests: seq<seq<real>>, volumes: seq<real>, capacities: seq<real>, duration: nat, t: nat, i: nat)
    requires Covers(requests, volumes) && t < |volumes| && t < |capacities| && i < duration
    ensures var second := Times(t, duration) + i;
            var bulk := Spread(PerSecond(volumes, duration), duration);
            var rest := Spread(Background(capacities, duration), duration);
            && second < |bulk| && second < |rest|
            && bulk[second] * duration as real == 10000.0 * Allocated(requests, t)
            && (6553600.0 - rest[second]) * duration as real == 10000.0 * capacities[t]
            && (bulk[second] + rest[second] <= 6553600.0 <==> Allocated(requests, t) <= capacities[t])
  {
    hide Part;
    hide Remainder;
    hide Spread;
    hide Times;
    hide Allocated;
    SpreadAt(PerSecond(volumes, duration), duration, t, i);
    SpreadAt(Background(capacities, duration), duration, t, i);
    OneSecond(volumes[t], capacities[t], duration);
  }
}
