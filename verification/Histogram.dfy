/**
  The duration histogram of metrics.go: what the buckets hold after any sequence of
  observations, what the running sums of them mean, and what the exposition writes instead.
*/
module Histogram {
  /** Bucket bounds in seconds, strictly increasing. */
  const BOUNDS: seq<real> := [0.005, 0.01, 0.025, 0.05, 0.1, 0.25, 0.5, 1.0, 2.5, 5.0, 10.0]

  // One bucket per bound and a last one for everything.
  datatype Hist = Hist(buckets: seq<nat>, count: nat, sum: real)

  function Zeros(n: nat): seq<nat> {
    seq(n, i => 0)
  }

  function Empty(): Hist {
    Hist(Zeros(|BOUNDS| + 1), 0, 0.0)
  }

  ghost predicate WellFormed(h: Hist) {
    |h.buckets| == |BOUNDS| + 1
  }

  /** The first bound that is not exceeded, or the number of bounds. */
  function Slot(d: real, i: nat): (s: nat)
    requires i <= |BOUNDS|
    ensures i <= s <= |BOUNDS|
    ensures forall j :: i <= j < s ==> BOUNDS[j] < d
    ensures s < |BOUNDS| ==> d <= BOUNDS[s]
    decreases |BOUNDS| - i
  {
    if i == |BOUNDS| || d <= BOUNDS[i] then i else Slot(d, i + 1)
  }

  function Bump(buckets: seq<nat>, i: nat): seq<nat>
    requires i < |buckets|
  {
    buckets[i := buckets[i] + 1]
  }

  function Observed(h: Hist, d: real): (r: Hist)
    requires WellFormed(h)
    ensures WellFormed(r)
  {
    var s := Slot(d, 0);
    var buckets := if s < |BOUNDS| then Bump(h.buckets, s) else h.buckets;
    Hist(Bump(buckets, |BOUNDS|), h.count + 1, h.sum + d)
  }

  function HistOf(ds: seq<real>): (h: Hist)
    ensures WellFormed(h)
  {
    if ds == [] then Empty() else Observed(HistOf(ds[..|ds| - 1]), ds[|ds| - 1])
  }

  class RouteSeries {
    var buckets: seq<nat>
    var count: nat
    var sum: real

    ghost function Value(): Hist
      reads this
    {
      Hist(buckets, count, sum)
    }

    constructor ()
      ensures Value() == Empty()
    {
      buckets, count, sum := Zeros(|BOUNDS| + 1), 0, 0.0;
    }

    method Observe(duration: real)
      requires WellFormed(Value())
      modifies this
      ensures Value() == Observed(old(Value()), duration)
    {
      hide BOUNDS;
      count := count + 1;
      sum := sum + duration;
      var i := 0;
      while i < |BOUNDS|
        invariant 0 <= i <= |BOUNDS| && Slot(duration, 0) == Slot(duration, i)
        invariant buckets == old(buckets) && count == old(count) + 1 && sum == old(sum) + duration
      {
        if duration <= BOUNDS[i] {
          buckets := buckets[i := buckets[i] + 1];
          break;
        }
        i := i + 1;
      }
      buckets := buckets[|BOUNDS| := buckets[|BOUNDS|] + 1];
    }
  }

  // ---------------------------------------------------------------------------
  // What the numbers mean
  // ---------------------------------------------------------------------------

  /** How many durations lie above `lo` (when there is one) and at or below `hi`. */
  function CountIn(ds: seq<real>, bounded: bool, lo: real, hi: real): nat {
    if ds == [] then 0
    else
      var d := ds[|ds| - 1];
      CountIn(ds[..|ds| - 1], bounded, lo, hi) + if (bounded ==> lo < d) && d <= hi then 1 else 0
  }

  function CountAtMost(ds: seq<real>, hi: real): nat {
    CountIn(ds, false, 0.0, hi)
  }

  function Total(ds: seq<real>): real {
    if ds == [] then 0.0 else Total(ds[..|ds| - 1]) + ds[|ds| - 1]
  }

  /** The sum of the first i + 1 buckets. */
  function Running(buckets: seq<nat>, i: nat): nat
    requires i < |buckets|
  {
    buckets[i] + if i == 0 then 0 else Running(buckets, i - 1)
  }

  lemma BoundsIncrease()
    ensures |BOUNDS| == 11
    ensures forall i, j :: 0 <= i < j < |BOUNDS| ==> BOUNDS[i] < BOUNDS[j]
  {
  }

  lemma SlotMeaning(d: real, i: nat)
    requires i < |BOUNDS|
    ensures Slot(d, 0) == i <==> (i > 0 ==> BOUNDS[i - 1] < d) && d <= BOUNDS[i]
    ensures Slot(d, 0) <= i <==> d <= BOUNDS[i]
  {
    hide BOUNDS;
    BoundsIncrease();
  }

  /**
    After any observations: bucket i holds exactly the durations above the previous bound and
    at or below its own, the last bucket and the count hold all, the sum is the total.
  */
  lemma {:induction false} BucketsMeanIntervals(ds: seq<real>, i: nat)
    requires i < |BOUNDS|
    ensures var h := HistOf(ds);
      && h.buckets[i] == CountIn(ds, i > 0, if i > 0 then BOUNDS[i - 1] else 0.0, BOUNDS[i])
      && h.buckets[|BOUNDS|] == h.count == |ds|
      && h.sum == Total(ds)
  {
    hide BOUNDS, Slot;
    if ds != [] {
      BucketsMeanIntervals(ds[..|ds| - 1], i);
      SlotMeaning(ds[|ds| - 1], i);
    }
  }

  lemma {:induction false} RunningOfBump(buckets: seq<nat>, s: nat, i: nat)
    requires i < |buckets| && s < |buckets|
    ensures Running(Bump(buckets, s), i) == Running(buckets, i) + if s <= i then 1 else 0
  {
    if i > 0 {
      RunningOfBump(buckets, s, i - 1);
    }
  }

  lemma {:induction false} RunningOfZeros(n: nat, i: nat)
    requires i < n
    ensures Running(Zeros(n), i) == 0
  {
    if i > 0 {
      RunningOfZeros(n, i - 1);
    }
  }

  /** Running sums are what a Prometheus histogram shows: the durations at or below each bound. */
  lemma {:induction false} RunningSumsCount(ds: seq<real>, i: nat)
    requires i < |BOUNDS|
    ensures Running(HistOf(ds).buckets, i) == CountAtMost(ds, BOUNDS[i])
    ensures i > 0 ==> Running(HistOf(ds).buckets, i - 1) <= Running(HistOf(ds).buckets, i)
    ensures Running(HistOf(ds).buckets, i) <= |ds|
  {
    hide BOUNDS;
    if ds == [] {
      RunningOfZeros(|BOUNDS| + 1, i);
    } else {
      var init, d := ds[..|ds| - 1], ds[|ds| - 1];
      RunningSumsCount(init, i);
      SlotMeaning(d, i);
      var h, s := HistOf(init), Slot(d, 0);
      var mid := if s < |BOUNDS| then Bump(h.buckets, s) else h.buckets;
      if s < |BOUNDS| {
        RunningOfBump(h.buckets, s, i);
      }
      RunningOfBump(mid, |BOUNDS|, i);
    }
  }

  // ---------------------------------------------------------------------------
  // What the exposition writes
  // ---------------------------------------------------------------------------

  /** The values of the finite `le` lines, in order: the loop overwrites instead of adding up. */
  method EmittedLines(h: Hist) returns (lines: seq<nat>)
    requires WellFormed(h)
    ensures lines == h.buckets[..|BOUNDS|]
  {
    lines := [];
    var cumulative := 0;
    for i := 0 to |BOUNDS|
      invariant lines == h.buckets[..i]
    {
      cumulative := h.buckets[i];
      lines := lines + [cumulative];
    }
  }

  /** The values the format asks for: the loop with the missing addition. */
  method CumulativeLines(h: Hist) returns (lines: seq<nat>)
    requires WellFormed(h)
    ensures |lines| == |BOUNDS| && forall i :: 0 <= i < |BOUNDS| ==> lines[i] == Running(h.buckets, i)
  {
    lines := [];
    var cumulative := 0;
    for i := 0 to |BOUNDS|
      invariant |lines| == i && forall j :: 0 <= j < i ==> lines[j] == Running(h.buckets, j)
      invariant cumulative == if i == 0 then 0 else Running(h.buckets, i - 1)
    {
      cumulative := cumulative + h.buckets[i];
      lines := lines + [cumulative];
    }
  }

  lemma {:induction false} CountPositive(ds: seq<real>, k: nat, hi: real)
    requires k < |ds| && ds[k] <= hi
    ensures CountAtMost(ds, hi) > 0
  {
    if k < |ds| - 1 {
      CountPositive(ds[..|ds| - 1], k, hi);
    }
  }

  lemma {:induction false} CountNone(ds: seq<real>, hi: real)
    requires forall k :: 0 <= k < |ds| ==> hi < ds[k]
    ensures CountAtMost(ds, hi) == 0
  {
    if ds != [] {
      CountNone(ds[..|ds| - 1], hi);
    }
  }

  lemma SlowRequestsOnly(ds: seq<real>, i: nat)
    requires i < |BOUNDS|
    requires i > 0 ==> forall k :: 0 <= k < |ds| ==> BOUNDS[i - 1] < ds[k]
    ensures HistOf(ds).buckets[i] == CountAtMost(ds, BOUNDS[i])
  {
    hide BOUNDS, HistOf, CountAtMost;
    RunningSumsCount(ds, i);
    if i > 0 {
      RunningSumsCount(ds, i - 1);
      CountNone(ds, BOUNDS[i - 1]);
    }
  }

  lemma FastRequestShows(ds: seq<real>, k: nat, i: nat)
    requires k < |ds| && 0 < i < |BOUNDS| && ds[k] <= BOUNDS[i - 1]
    ensures HistOf(ds).buckets[i] < CountAtMost(ds, BOUNDS[i])
  {
    hide BOUNDS, HistOf, CountAtMost;
    RunningSumsCount(ds, i);
    RunningSumsCount(ds, i - 1);
    CountPositive(ds, k, BOUNDS[i - 1]);
  }

  /**
    The written `le` lines are the counts the format promises exactly when no duration is at
    or below the last bound but one (5 seconds): any faster request makes some line too low.
  */
  lemma EmittedLinesCorrectExactly(ds: seq<real>)
    ensures (forall i :: 0 <= i < |BOUNDS| ==> HistOf(ds).buckets[i] == CountAtMost(ds, BOUNDS[i]))
            <==> forall k :: 0 <= k < |ds| ==> BOUNDS[|BOUNDS| - 2] < ds[k]
  {
    BoundsIncrease();
    hide BOUNDS, HistOf, CountAtMost;
    var n := |BOUNDS|;
    if forall k :: 0 <= k < |ds| ==> BOUNDS[n - 2] < ds[k] {
      forall i | 0 <= i < n
        ensures HistOf(ds).buckets[i] == CountAtMost(ds, BOUNDS[i])
      {
        SlowRequestsOnly(ds, i);
      }
    } else {
      var k :| 0 <= k < |ds| && ds[k] <= BOUNDS[n - 2];
      FastRequestShows(ds, k, n - 1);
    }
  }
}
