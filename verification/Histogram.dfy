/** The bounded latency histogram of the per-VM collector: exact count, total, minimum
    and maximum beside fourteen fixed buckets, and percentiles read off the buckets. */
module Histogram {
  import opened Words
  import opened Logs

  const BUCKETS: nat := 14

  /** Strict upper bounds; the last bucket is open-ended. */
  const UPPER_NS: seq<u64> := [
    100_000, 250_000, 500_000, 1_000_000, 2_000_000, 5_000_000, 10_000_000, 20_000_000, 50_000_000,
    100_000_000, 250_000_000, 500_000_000, 1_000_000_000, MAX_U64]

  /** How the buckets are shown. */
  const LABELS: seq<string> := [
    "<100 us", "<250 us", "<500 us", "<1 ms", "<2 ms", "<5 ms", "<10 ms", "<20 ms", "<50 ms", "<100 ms",
    "<250 ms", "<500 ms", "<1 s", "1 s+"]

  /** One bucket as it is published: its label, its count and its share in percent. */
  datatype PublicBucket = PublicBucket(range: string, count: u64, percent: real)

  /** The contents of a histogram. */
  datatype Totals = Totals(count: u64, totalNs: u64, minNs: u64, maxNs: u64, buckets: Buckets)

  type Buckets = b: seq<u64> | |b| == 14 witness [0, 0, 0, 0, 0, 0, 0, 0, 0, 0, 0, 0, 0, 0]

  datatype Operations = Operations(readOps: u64, writeOps: u64, flushOps: u64, discardOps: u64, unknownOps: u64)

  /** One aggregate read from a kernel map. */
  datatype KernelLatency = KernelLatency(latency: Totals, operations: Operations)

  const NO_OPERATIONS := Operations(0, 0, 0, 0, 0)

  function Empty(): Totals {
    Totals(0, 0, 0, 0, seq(BUCKETS, _ => 0))
  }

  // ----- what the methods compute -----

  /** Bucket b holds the latencies from Limit(b) up to, not including, Limit(b + 1). */
  function Limit(b: nat): nat
    requires b <= BUCKETS
  {
    if b == 0 then 0 else if b == BUCKETS then TWO_64 else UPPER_NS[b - 1]
  }

  function BucketFrom(x: u64, b: nat): (r: nat)
    requires b < BUCKETS && Limit(b) <= x
    ensures r < BUCKETS && Limit(r) <= x < Limit(r + 1)
    decreases BUCKETS - b, x
  {
    if x < UPPER_NS[b] || b == BUCKETS - 1 then b else BucketFrom(x, b + 1)
  }

  function BucketOf(x: u64): (r: nat)
    ensures r < BUCKETS && Limit(r) <= x < Limit(r + 1)
  {
    BucketFrom(x, 0)
  }

  function Bump(x: u64): u64 {
    Wrap(x as int + 1)
  }

  lemma BumpWraps(n: nat)
    ensures Bump(Wrap(n)) == Wrap(n + 1)
  {
    WrapAdd(n, 1);
  }

  function Observed(h: Totals, x: u64): Totals {
    var b := BucketOf(x);
    Totals(
      Bump(h.count), SaturatingAdd(h.totalNs, x),
      if h.count == 0 then x else Min(h.minNs, x), Max(h.maxNs, x), h.buckets[b := Bump(h.buckets[b])])
  }

  function AddBuckets(a: Buckets, b: Buckets): Buckets {
    seq(BUCKETS, i requires 0 <= i < BUCKETS => SaturatingAdd(a[i], b[i]))
  }

  function Merged(h: Totals, v: Totals): Totals {
    if v.count == 0 then h
    else Totals(
      SaturatingAdd(h.count, v.count), SaturatingAdd(h.totalNs, v.totalNs),
      if h.count == 0 then v.minNs else Min(h.minNs, v.minNs), Max(h.maxNs, v.maxNs),
      AddBuckets(h.buckets, v.buckets))
  }

  function AddOperations(a: Operations, b: Operations): Operations {
    Operations(
      SaturatingAdd(a.readOps, b.readOps), SaturatingAdd(a.writeOps, b.writeOps), SaturatingAdd(a.flushOps, b.flushOps),
      SaturatingAdd(a.discardOps, b.discardOps), SaturatingAdd(a.unknownOps, b.unknownOps))
  }

  /** One per-CPU value added to a running aggregate. */
  function AddCpu(r: KernelLatency, v: KernelLatency): KernelLatency {
    var a, b := r.latency, v.latency;
    KernelLatency(
      Totals(
        SaturatingAdd(a.count, b.count), SaturatingAdd(a.totalNs, b.totalNs),
        if b.count == 0 then a.minNs else if a.count == 0 then b.minNs else Min(a.minNs, b.minNs),
        Max(a.maxNs, b.maxNs), AddBuckets(a.buckets, b.buckets)),
      AddOperations(r.operations, v.operations))
  }

  function AddAllCpus(values: seq<KernelLatency>): KernelLatency {
    if values == [] then KernelLatency(Empty(), NO_OPERATIONS)
    else AddCpu(AddAllCpus(values[..|values| - 1]), values[|values| - 1])
  }

  /** The total of the first n buckets. */
  function Cumulative(buckets: seq<u64>, n: nat): nat
    requires n <= |buckets|
  {
    if n == 0 then 0 else Cumulative(buckets, n - 1) + buckets[n - 1]
  }

  /** The running 64-bit total through bucket b reaches a rank. */
  predicate Reaches(buckets: seq<u64>, rank: nat, b: nat)
    requires b < |buckets|
  {
    Wrap(Cumulative(buckets, b + 1)) >= rank
  }

  /** The first bucket from b on at which the running total reaches a rank. */
  function FirstReaching(buckets: seq<u64>, rank: nat, b: nat): (r: nat)
    requires b <= |buckets|
    ensures b <= r <= |buckets|
    ensures r < |buckets| ==> Reaches(buckets, rank, r)
    ensures forall i :: b <= i < r ==> !Reaches(buckets, rank, i)
    decreases |buckets| - b
  {
    if b == |buckets| || Reaches(buckets, rank, b) then b else FirstReaching(buckets, rank, b + 1)
  }

  function Ceiling(x: real): (r: int)
    ensures x <= r as real < x + 1.0
  {
    -((-x).Floor)
  }

  lemma CeilingMonotone(x: real, y: real)
    requires x <= y
    ensures Ceiling(x) <= Ceiling(y)
  {
  }

  /** The 1-based nearest rank of a percentile. */
  function Rank(p: real, count: u64): (r: nat)
    requires 0.0 <= p
    ensures r >= 1
  {
    var ceiling := Ceiling(p * count as real);
    if ceiling <= 0 then 1 else ceiling
  }

  function PickedBucket(h: Totals, p: real): (b: nat)
    requires 0.0 <= p
    ensures b <= BUCKETS
  {
    FirstReaching(h.buckets, Rank(p, h.count), 0)
  }

  /** The bound reported for a bucket; the open-ended one has the true maximum. */
  function Estimate(maxNs: u64, b: nat): u64 {
    if b >= BUCKETS - 1 then maxNs else UPPER_NS[b]
  }

  function PercentileNs(h: Totals, p: real): u64
    requires 0.0 <= p
  {
    if h.count == 0 then 0 else Estimate(h.maxNs, PickedBucket(h, p))
  }

  function NsToMs(ns: u64): real {
    ns as real / 1_000_000.0
  }

  /** The figures of the public summary, in milliseconds. */
  datatype Figures = Figures(minimum: real, average: real, p50: real, p95: real, p99: real, maximum: real)

  function FiguresOf(h: Totals): Figures {
    if h.count == 0 then Figures(0.0, 0.0, 0.0, 0.0, 0.0, 0.0)
    else Figures(
      NsToMs(h.minNs), NsToMs(h.totalNs) / h.count as real, NsToMs(PercentileNs(h, 0.50)),
      NsToMs(PercentileNs(h, 0.95)), NsToMs(PercentileNs(h, 0.99)), NsToMs(h.maxNs))
  }

  /** A bucket's share of all observations, in percent. */
  function Share(h: Totals, b: nat): real
    requires b < BUCKETS
  {
    if h.count > 0 then h.buckets[b] as real / h.count as real * 100.0 else 0.0
  }

  function Shares(h: Totals, n: nat): seq<real>
    requires n <= BUCKETS
  {
    seq(n, b requires 0 <= b < n => Share(h, b))
  }

  // ----- the methods -----

  /** A histogram that is updated in place. */
  class BoundedHistogram {
    var count: u64
    var totalNs: u64
    var minNs: u64
    var maxNs: u64
    const buckets: array<u64>

    ghost predicate Valid()
      reads this
    {
      buckets.Length == BUCKETS
    }

    ghost function Contents(): (h: Totals)
      requires Valid()
      reads this, buckets
    {
      Totals(count, totalNs, minNs, maxNs, buckets[..])
    }

    constructor ()
      ensures Valid() && fresh(buckets) && Contents() == Empty()
    {
      count, totalNs, minNs, maxNs := 0, 0, 0, 0;
      buckets := new u64[BUCKETS](_ => 0);
    }

    method Observe(latencyNs: u64)
      requires Valid()
      modifies this, buckets
      ensures Valid() && Contents() == Observed(old(Contents()), latencyNs)
    {
      if count == 0 || latencyNs < minNs {
        minNs := latencyNs;
      }
      if latencyNs > maxNs {
        maxNs := latencyNs;
      }
      count := Bump(count);
      if MAX_U64 - totalNs < latencyNs {
        totalNs := MAX_U64;
      } else {
        totalNs := totalNs + latencyNs;
      }
      var index := 0;
      while index < |UPPER_NS|
        invariant 0 <= index < BUCKETS && Limit(index) <= latencyNs
        invariant BucketFrom(latencyNs, index) == BucketOf(latencyNs)
        invariant buckets[..] == old(buckets[..])
      {
        if latencyNs < UPPER_NS[index] || index == |UPPER_NS| - 1 {
          buckets[index] := Bump(buckets[index]);
          return;
        }
        index := index + 1;
      }
    }

    method MergeKernel(value: KernelLatency)
      requires Valid()
      modifies this, buckets
      ensures Valid() && Contents() == Merged(old(Contents()), value.latency)
    {
      var v := value.latency;
      if v.count == 0 {
        return;
      }
      if count == 0 || v.minNs < minNs {
        minNs := v.minNs;
      }
      if v.maxNs > maxNs {
        maxNs := v.maxNs;
      }
      count := SaturatingAdd(count, v.count);
      totalNs := SaturatingAdd(totalNs, v.totalNs);
      for index := 0 to BUCKETS
        invariant count == SaturatingAdd(old(count), v.count) && totalNs == SaturatingAdd(old(totalNs), v.totalNs)
        invariant minNs == (if old(count) == 0 then v.minNs else Min(old(minNs), v.minNs))
        invariant maxNs == Max(old(maxNs), v.maxNs)
        invariant forall i :: 0 <= i < index ==> buckets[i] == SaturatingAdd(old(buckets[i]), v.buckets[i])
        invariant forall i :: index <= i < BUCKETS ==> buckets[i] == old(buckets[i])
      {
        buckets[index] := SaturatingAdd(buckets[index], v.buckets[index]);
      }
      assert buckets[..] == AddBuckets(old(buckets[..]), v.buckets);
    }

    /** The upper bound, in milliseconds, of the first bucket reaching the rank. */
    method Percentile(p: real) returns (ms: real)
      requires Valid() && 0.0 <= p
      ensures ms == NsToMs(PercentileNs(Contents(), p))
    {
      if count == 0 {
        return 0.0;
      }
      var rank := Rank(p, count);
      var cumulative: u64 := 0;
      ghost var counts := buckets[..];
      var index := 0;
      while index < BUCKETS
        invariant 0 <= index <= BUCKETS && counts == buckets[..] && |counts| == BUCKETS
        invariant cumulative == Wrap(Cumulative(counts, index))
        invariant FirstReaching(counts, rank, index) == FirstReaching(counts, rank, 0)
      {
        NextTotal(counts, index);
        cumulative := Wrap(cumulative as int + buckets[index]);
        if cumulative >= rank {
          if index == BUCKETS - 1 {
            return NsToMs(maxNs);
          }
          return NsToMs(UPPER_NS[index]);
        }
        index := index + 1;
      }
      return NsToMs(maxNs);
    }

    method Summary() returns (f: Figures)
      requires Valid()
      ensures f == FiguresOf(Contents())
    {
      if count == 0 {
        return Figures(0.0, 0.0, 0.0, 0.0, 0.0, 0.0);
      }
      var p50 := Percentile(0.50);
      var p95 := Percentile(0.95);
      var p99 := Percentile(0.99);
      return Figures(NsToMs(minNs), NsToMs(totalNs) / count as real, p50, p95, p99, NsToMs(maxNs));
    }

    method PublicBuckets() returns (public: seq<PublicBucket>)
      requires Valid()
      ensures |public| == BUCKETS
      ensures forall b :: 0 <= b < BUCKETS ==>
        public[b] == PublicBucket(LABELS[b], Contents().buckets[b], Share(Contents(), b))
    {
      public := [];
      for index := 0 to |LABELS|
        invariant |public| == index
        invariant forall b :: 0 <= b < index ==>
          public[b] == PublicBucket(LABELS[b], Contents().buckets[b], Share(Contents(), b))
      {
        var percent := 0.0;
        if count > 0 {
          percent := buckets[index] as real / count as real * 100.0;
        }
        public := public + [PublicBucket(LABELS[index], buckets[index], percent)];
      }
    }
  }

  lemma NextTotal(counts: seq<u64>, n: nat)
    requires n < |counts|
    ensures Wrap(Wrap(Cumulative(counts, n)) as int + counts[n]) == Wrap(Cumulative(counts, n + 1))
  {
    WrapAdd(Cumulative(counts, n), counts[n]);
  }

  method MergePerCpuLatency(values: seq<KernelLatency>) returns (result: KernelLatency)
    ensures result == AddAllCpus(values)
  {
    result := KernelLatency(Empty(), NO_OPERATIONS);
    for cpu := 0 to |values|
      invariant result == AddAllCpus(values[..cpu])
    {
      assert values[..cpu + 1][..cpu] == values[..cpu];
      var value := values[cpu].latency;
      var r := result.latency;
      if value.count > 0 && (r.count == 0 || value.minNs < r.minNs) {
        r := r.(minNs := value.minNs);
      }
      if value.maxNs > r.maxNs {
        r := r.(maxNs := value.maxNs);
      }
      r := r.(count := SaturatingAdd(r.count, value.count), totalNs := SaturatingAdd(r.totalNs, value.totalNs));
      var sums := AddEach(r.buckets, value.buckets);
      result := KernelLatency(r.(buckets := sums), AddOperations(result.operations, values[cpu].operations));
    }
    assert values[..|values|] == values;
  }

  method AddEach(a: Buckets, b: Buckets) returns (r: Buckets)
    ensures r == AddBuckets(a, b)
  {
    r := a;
    for index := 0 to BUCKETS
      invariant forall i :: 0 <= i < index ==> r[i] == SaturatingAdd(a[i], b[i])
      invariant forall i :: index <= i < BUCKETS ==> r[i] == a[i]
    {
      r := r[index := SaturatingAdd(r[index], b[index])];
    }
  }

  // ----- a histogram is a log of latencies -----

  /** Observing a list of latencies, first to last. */
  function FromLog(xs: seq<u64>): Totals {
    if xs == [] then Empty() else Observed(FromLog(xs[..|xs| - 1]), xs[|xs| - 1])
  }

  function CountIn(xs: seq<u64>, b: nat): int
    requires b < BUCKETS
  {
    CountBelow(xs, Limit(b + 1)) - CountBelow(xs, Limit(b))
  }

  /** The histogram says exactly what the log says. */
  ghost predicate Describes(h: Totals, xs: seq<u64>) {
    && h.count == |xs|
    && h.totalNs == Min(Sum(xs), MAX_U64)
    && h.minNs == Minimum(xs)
    && h.maxNs == Maximum(xs)
    && forall b :: 0 <= b < BUCKETS ==> h.buckets[b] == CountIn(xs, b)
  }

  lemma LimitsIncrease(a: nat, b: nat)
    requires a < b <= BUCKETS
    ensures Limit(a) < Limit(b)
  {
  }

  lemma OneMore(xs: seq<u64>, x: u64, b: nat)
    requires b < BUCKETS
    ensures CountIn(xs + [x], b) == CountIn(xs, b) + (if b == BucketOf(x) then 1 else 0)
    ensures 0 <= CountIn(xs, b) <= |xs|
  {
    assert (xs + [x])[..|xs|] == xs;
    LimitsIncrease(b, b + 1);
    CountBelowMonotone(xs, Limit(b), Limit(b + 1));
    var c := BucketOf(x);
    if b < c && b + 1 < c { LimitsIncrease(b + 1, c); }
    if c < b && c + 1 < b { LimitsIncrease(c + 1, b); }
  }

  lemma ObservedDescribes(h: Totals, xs: seq<u64>, x: u64)
    requires Describes(h, xs) && |xs| + 1 < TWO_64
    ensures Describes(Observed(h, x), xs + [x])
  {
    assert (xs + [x])[..|xs|] == xs;
    forall b | 0 <= b < BUCKETS
      ensures Observed(h, x).buckets[b] == CountIn(xs + [x], b)
    {
      OneMore(xs, x, b);
    }
  }

  lemma EmptyDescribes()
    ensures Describes(Empty(), [])
  {
  }

  /** The fast form agrees with the list: after fewer than 2^64 observations the counters
      are exact, the total is clamped, and each bucket counts its latencies. */
  lemma {:induction false} FromLogDescribes(xs: seq<u64>)
    requires |xs| < TWO_64
    ensures Describes(FromLog(xs), xs)
  {
    if xs == [] {
      EmptyDescribes();
    } else {
      var front, x := xs[..|xs| - 1], xs[|xs| - 1];
      FromLogDescribes(front);
      ObservedDescribes(FromLog(front), front, x);
      assert front + [x] == xs;
    }
  }

  lemma DescribesUnique(h: Totals, k: Totals, xs: seq<u64>)
    requires Describes(h, xs) && Describes(k, xs)
    ensures h == k
  {
    assert h.buckets == k.buckets;
  }

  lemma MergedDescribes(h: Totals, k: Totals, xs: seq<u64>, ys: seq<u64>)
    requires Describes(h, xs) && Describes(k, ys) && |xs| + |ys| < TWO_64
    ensures Describes(Merged(h, k), xs + ys)
  {
    SumAppend(xs, ys);
    MinimumAppend(xs, ys);
    forall b | 0 <= b < BUCKETS
      ensures Merged(h, k).buckets[b] == CountIn(xs + ys, b)
    {
      CountBelowAppend(xs, ys, Limit(b));
      CountBelowAppend(xs, ys, Limit(b + 1));
      LimitsIncrease(b, b + 1);
      CountBelowMonotone(xs + ys, Limit(b), Limit(b + 1));
    }
    if ys == [] {
      assert xs + ys == xs;
    }
  }

  /** Merging the aggregate of ys into the histogram of xs is the same as observing xs
      and then ys. */
  lemma MergeIsAppend(xs: seq<u64>, ys: seq<u64>)
    requires |xs| + |ys| < TWO_64
    ensures Merged(FromLog(xs), FromLog(ys)) == FromLog(xs + ys)
  {
    FromLogDescribes(xs);
    FromLogDescribes(ys);
    FromLogDescribes(xs + ys);
    MergedDescribes(FromLog(xs), FromLog(ys), xs, ys);
    DescribesUnique(Merged(FromLog(xs), FromLog(ys)), FromLog(xs + ys), xs + ys);
  }

  // ----- merging per-CPU values in any order -----

  lemma SaturatingSwap(r: u64, a: u64, b: u64)
    ensures SaturatingAdd(SaturatingAdd(r, a), b) == SaturatingAdd(SaturatingAdd(r, b), a)
  {
  }

  lemma BucketsSwap(r: Buckets, a: Buckets, b: Buckets)
    ensures AddBuckets(AddBuckets(r, a), b) == AddBuckets(AddBuckets(r, b), a)
  {
  }

  lemma OperationsSwap(r: Operations, a: Operations, b: Operations)
    ensures AddOperations(AddOperations(r, a), b) == AddOperations(AddOperations(r, b), a)
  {
  }

  /** Two per-CPU values may be added in either order. */
  lemma CpuSwap(r: KernelLatency, a: KernelLatency, b: KernelLatency)
    ensures AddCpu(AddCpu(r, a), b) == AddCpu(AddCpu(r, b), a)
  {
    BucketsSwap(r.latency.buckets, a.latency.buckets, b.latency.buckets);
    OperationsSwap(r.operations, a.operations, b.operations);
    SaturatingSwap(r.latency.count, a.latency.count, b.latency.count);
    SaturatingSwap(r.latency.totalNs, a.latency.totalNs, b.latency.totalNs);
  }

  /** Any value may be moved to the end. */
  lemma {:induction false} CpuLast(values: seq<KernelLatency>, i: nat)
    requires i < |values|
    ensures AddAllCpus(values) == AddCpu(AddAllCpus(values[..i] + values[i + 1..]), values[i])
  {
    var n := |values| - 1;
    if i == n {
      assert values[..i] + values[i + 1..] == values[..n];
    } else {
      var front, last := values[..n], values[n];
      CpuLast(front, i);
      var fewer := front[..i] + front[i + 1..];
      var all := values[..i] + values[i + 1..];
      LeaveOut(values, i);
      assert all[..|all| - 1] == fewer;
      CpuSwap(AddAllCpus(fewer), values[i], last);
    }
  }

  /** The merged result does not depend on the order of the CPUs. */
  lemma {:induction false} PerCpuOrder(values: seq<KernelLatency>, others: seq<KernelLatency>)
    requires multiset(values) == multiset(others)
    ensures AddAllCpus(values) == AddAllCpus(others)
    decreases |values|
  {
    if values == [] {
      assert |multiset(others)| == 0;
    } else {
      var i := SharedElement(values, others);
      CpuLast(others, i);
      PerCpuOrder(values[..|values| - 1], others[..i] + others[i + 1..]);
    }
  }

  function Flatten(logs: seq<seq<u64>>): seq<u64> {
    if logs == [] then [] else Flatten(logs[..|logs| - 1]) + logs[|logs| - 1]
  }

  /** When each CPU's value aggregates its own latencies, the merged value aggregates all
      of them. */
  lemma {:induction false} PerCpuIsLog(values: seq<KernelLatency>, logs: seq<seq<u64>>)
    requires |values| == |logs| && |Flatten(logs)| < TWO_64
    requires forall i :: 0 <= i < |values| ==> Describes(values[i].latency, logs[i])
    ensures Describes(AddAllCpus(values).latency, Flatten(logs))
  {
    var n := |values| - 1;
    if values == [] {
    } else {
      PerCpuIsLog(values[..n], logs[..n]);
      var all, last := AddAllCpus(values[..n]), values[n];
      MergedDescribes(all.latency, last.latency, Flatten(logs[..n]), logs[n]);
      AddCpuIsMerged(all, last, logs[n]);
    }
  }

  lemma AddCpuIsMerged(r: KernelLatency, v: KernelLatency, xs: seq<u64>)
    requires Describes(v.latency, xs)
    ensures AddCpu(r, v).latency == Merged(r.latency, v.latency)
  {
    if xs == [] {
      assert forall b :: 0 <= b < BUCKETS ==> CountIn(xs, b) == 0;
      assert AddBuckets(r.latency.buckets, v.latency.buckets) == r.latency.buckets;
    }
  }

  // ----- percentiles -----

  lemma {:induction false} CumulativeCounts(h: Totals, xs: seq<u64>, n: nat)
    requires Describes(h, xs) && n <= BUCKETS
    ensures Cumulative(h.buckets, n) == CountBelow(xs, Limit(n))
  {
    if n == 0 {
      NoneBelow(xs);
    } else {
      CumulativeCounts(h, xs, n - 1);
    }
  }

  lemma {:induction false} NoneBelow(xs: seq<u64>)
    ensures CountBelow(xs, 0) == 0
  {
    if xs == [] {
    } else {
      NoneBelow(xs[..|xs| - 1]);
    }
  }

  lemma Scale(p: real, q: real, c: real)
    requires p <= q && c >= 0.0
    ensures p * c <= q * c
  {
  }

  lemma RankInRange(p: real, count: u64)
    requires 0.0 <= p <= 1.0 && count > 0
    ensures Rank(p, count) <= count
  {
    Scale(p, 1.0, count as real);
    CeilingMonotone(p * count as real, count as real);
  }

  lemma RankMonotone(p: real, q: real, count: u64)
    requires 0.0 <= p <= q
    ensures Rank(p, count) <= Rank(q, count)
  {
    Scale(p, q, count as real);
    CeilingMonotone(p * count as real, q * count as real);
  }

  lemma ReachingBucket(h: Totals, xs: seq<u64>, sorted: seq<u64>, rank: nat)
    requires Describes(h, xs) && |xs| < TWO_64 && Sorted(sorted) && multiset(sorted) == multiset(xs)
    requires 1 <= rank <= |sorted|
    ensures FirstReaching(h.buckets, rank, 0) == BucketOf(sorted[rank - 1])
  {
    var b, picked := BucketOf(sorted[rank - 1]), FirstReaching(h.buckets, rank, 0);
    ReachedWhen(h, xs, sorted, rank, b);
    if picked < b {
      ReachedWhen(h, xs, sorted, rank, picked);
      if picked + 1 < b { LimitsIncrease(picked + 1, b); }
    }
  }

  /** The running total reaches the rank at bucket b exactly when the element of that
      rank is below the end of the bucket. */
  lemma ReachedWhen(h: Totals, xs: seq<u64>, sorted: seq<u64>, rank: nat, b: nat)
    requires Describes(h, xs) && |xs| < TWO_64 && Sorted(sorted) && multiset(sorted) == multiset(xs)
    requires 1 <= rank <= |sorted| && b < BUCKETS
    ensures Reaches(h.buckets, rank, b) <==> sorted[rank - 1] < Limit(b + 1)
    ensures Cumulative(h.buckets, b + 1) <= |xs|
  {
    var bound := Limit(b + 1);
    CumulativeCounts(h, xs, b + 1);
    CountBelowMonotone(xs, bound, bound);
    SmallWrap(Cumulative(h.buckets, b + 1));
    RankCounted(xs, sorted, rank, bound);
  }

  lemma RankCounted(xs: seq<u64>, sorted: seq<u64>, rank: nat, bound: nat)
    requires Sorted(sorted) && multiset(sorted) == multiset(xs) && 1 <= rank <= |sorted|
    ensures rank <= CountBelow(xs, bound) <==> sorted[rank - 1] < bound
  {
    CountBelowPermuted(sorted, xs, bound);
    RankBelow(sorted, rank - 1, bound);
  }

  /** An estimate brackets the element of its rank: the element lies in the bucket, so
      it is strictly below the bound, or at most the true maximum in the last bucket. */
  ghost predicate Brackets(exact: u64, b: nat, estimate: u64, maximum: u64) {
    && b < BUCKETS && Limit(b) <= exact < Limit(b + 1)
    && estimate == (if b < BUCKETS - 1 then Limit(b + 1) else maximum)
    && exact <= maximum
  }

  lemma RankBrackets(h: Totals, xs: seq<u64>, sorted: seq<u64>, rank: nat)
    requires Describes(h, xs) && |xs| < TWO_64 && Sorted(sorted) && multiset(sorted) == multiset(xs)
    requires 1 <= rank <= |sorted|
    ensures var b := FirstReaching(h.buckets, rank, 0);
            Brackets(sorted[rank - 1], b, Estimate(h.maxNs, b), h.maxNs)
  {
    ReachingBucket(h, xs, sorted, rank);
    InRange(xs, sorted, rank - 1);
  }

  lemma SameLength(xs: seq<u64>, sorted: seq<u64>)
    requires multiset(sorted) == multiset(xs)
    ensures |sorted| == |xs|
  {
    assert |multiset(sorted)| == |sorted| && |multiset(xs)| == |xs|;
  }

  /** For any list and percentile, the exact nearest-rank value is bracketed. */
  lemma PercentileBrackets(xs: seq<u64>, sorted: seq<u64>, p: real, rank: nat)
    requires 0 < |xs| < TWO_64 && 0.0 < p <= 1.0 && rank == Rank(p, |xs|)
    requires Sorted(sorted) && multiset(sorted) == multiset(xs)
    ensures 1 <= rank <= |sorted|
    ensures Brackets(sorted[rank - 1], PickedBucket(FromLog(xs), p), PercentileNs(FromLog(xs), p), Maximum(xs))
  {
    FromLogDescribes(xs);
    RankInRange(p, |xs|);
    SameLength(xs, sorted);
    RankBrackets(FromLog(xs), xs, sorted, rank);
  }

  lemma FirstReachingMonotone(buckets: seq<u64>, low: nat, high: nat, b: nat)
    requires low <= high && b <= |buckets|
    ensures FirstReaching(buckets, low, b) <= FirstReaching(buckets, high, b)
    decreases |buckets| - b
  {
  }

  lemma EstimateIncreases(maxNs: u64, low: nat, high: nat)
    requires low <= high < BUCKETS && (high == BUCKETS - 1 ==> Limit(high) <= maxNs)
    ensures Estimate(maxNs, low) <= Estimate(maxNs, high)
  {
    if low + 1 < high { LimitsIncrease(low + 1, high); }
    if low < high { LimitsIncrease(high, high + 1); }
  }

  lemma EstimatesIncrease(h: Totals, xs: seq<u64>, sorted: seq<u64>, low: nat, high: nat)
    requires Describes(h, xs) && |xs| < TWO_64 && Sorted(sorted) && multiset(sorted) == multiset(xs)
    requires 1 <= low <= high <= |sorted|
    ensures h.minNs <= Estimate(h.maxNs, FirstReaching(h.buckets, low, 0))
                    <= Estimate(h.maxNs, FirstReaching(h.buckets, high, 0))
  {
    RankBrackets(h, xs, sorted, low);
    RankBrackets(h, xs, sorted, high);
    FirstReachingMonotone(h.buckets, low, high, 0);
    EstimateIncreases(h.maxNs, FirstReaching(h.buckets, low, 0), FirstReaching(h.buckets, high, 0));
    InRange(xs, sorted, low - 1);
  }

  /** Estimates of increasing percentiles increase, from the minimum on. */
  lemma PercentilesIncrease(xs: seq<u64>, sorted: seq<u64>, p: real, q: real)
    requires 0 < |xs| < TWO_64 && 0.0 < p <= q <= 1.0
    requires Sorted(sorted) && multiset(sorted) == multiset(xs)
    ensures Minimum(xs) <= PercentileNs(FromLog(xs), p) <= PercentileNs(FromLog(xs), q)
  {
    FromLogDescribes(xs);
    RankMonotone(p, q, |xs|);
    RankInRange(q, |xs|);
    SameLength(xs, sorted);
    EstimatesIncrease(FromLog(xs), xs, sorted, Rank(p, |xs|), Rank(q, |xs|));
  }

  lemma InRange(xs: seq<u64>, sorted: seq<u64>, i: nat)
    requires multiset(sorted) == multiset(xs) && i < |sorted|
    ensures Minimum(xs) <= sorted[i] <= Maximum(xs)
  {
    assert sorted[i] in multiset(sorted);
    assert sorted[i] in xs;
    Extremes(xs);
  }

  /** The average lies between the minimum and the maximum while the total is exact. */
  lemma AverageBetween(xs: seq<u64>)
    requires |xs| < TWO_64 && Sum(xs) <= MAX_U64
    ensures var h := FromLog(xs); h.count * h.minNs <= h.totalNs <= h.count * h.maxNs
  {
    FromLogDescribes(xs);
    Bounds(xs);
  }

  lemma MsMonotone(a: u64, b: u64)
    requires a <= b
    ensures NsToMs(a) <= NsToMs(b)
  {
  }

  lemma AverageMs(low: u64, total: u64, high: u64, n: u64)
    requires n > 0 && n * low <= total <= n * high
    ensures NsToMs(low) <= NsToMs(total) / n as real <= NsToMs(high)
  {
    var x, y, z, c := NsToMs(low), NsToMs(total), NsToMs(high), n as real;
    assert (n * low) as real == c * low as real && (n * high) as real == c * high as real;
    assert x * c <= y <= z * c;
    Quotient(x, y, z, c);
  }

  lemma Quotient(x: real, y: real, z: real, c: real)
    requires c > 0.0 && x * c <= y <= z * c
    ensures x <= y / c <= z
  {
    var q := y / c;
    assert q * c == y;
    assert q < x ==> q * c < x * c;
    assert q > z ==> q * c > z * c;
  }

  /** The public summary of a nonempty list is ordered: the average between the extremes, the
      percentile estimates increasing from the minimum on. */
  lemma SummaryOrdered(xs: seq<u64>, sorted: seq<u64>)
    requires 0 < |xs| < TWO_64 && Sum(xs) <= MAX_U64
    requires Sorted(sorted) && multiset(sorted) == multiset(xs)
    ensures var f := FiguresOf(FromLog(xs));
            f.minimum <= f.average <= f.maximum && f.minimum <= f.p50 <= f.p95 <= f.p99
  {
    var h := FromLog(xs);
    FromLogDescribes(xs);
    AverageBetween(xs);
    AverageMs(h.minNs, h.totalNs, h.maxNs, h.count);
    PercentilesIncrease(xs, sorted, 0.50, 0.95);
    PercentilesIncrease(xs, sorted, 0.95, 0.99);
    MsMonotone(h.minNs, PercentileNs(h, 0.50));
    MsMonotone(PercentileNs(h, 0.50), PercentileNs(h, 0.95));
    MsMonotone(PercentileNs(h, 0.95), PercentileNs(h, 0.99));
  }

  function RealSum(xs: seq<real>): real {
    if xs == [] then 0.0 else RealSum(xs[..|xs| - 1]) + xs[|xs| - 1]
  }

  lemma SharesAdd(a: nat, b: nat, c: real)
    requires c > 0.0
    ensures a as real / c * 100.0 + b as real / c * 100.0 == (a + b) as real / c * 100.0
  {
    assert a as real / c + b as real / c == (a + b) as real / c;
  }

  lemma {:induction false} SharesSum(h: Totals, n: nat)
    requires h.count > 0 && n <= BUCKETS
    ensures RealSum(Shares(h, n)) == Cumulative(h.buckets, n) as real / h.count as real * 100.0
  {
    if n == 0 {
    } else {
      SharesSum(h, n - 1);
      assert Shares(h, n)[..n - 1] == Shares(h, n - 1);
      SharesAdd(Cumulative(h.buckets, n - 1), h.buckets[n - 1], h.count as real);
    }
  }

  lemma WholeShare(c: real)
    requires c > 0.0
    ensures c / c * 100.0 == 100.0
  {
  }

  /** The n = 14 buckets of a nonempty list hold all of it: their counts add up to the count
      and their shares to 100. */
  lemma BucketsComplete(xs: seq<u64>, h: Totals, n: nat)
    requires 0 < |xs| < TWO_64 && h == FromLog(xs) && n == BUCKETS
    ensures Cumulative(h.buckets, n) == h.count == |xs|
    ensures RealSum(Shares(h, n)) == 100.0
  {
    FromLogDescribes(xs);
    CumulativeCounts(h, xs, n);
    AllBelow(xs, TWO_64);
    SharesSum(h, n);
    WholeShare(h.count as real);
  }
}
