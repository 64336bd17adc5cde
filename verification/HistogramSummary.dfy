/** What the published histogram and summary of a list of latencies say: every bucket by
    its label, every figure by the latencies themselves. */
module HistogramSummary {
  import opened Words
  import opened Logs
  import opened Labels
  import opened Histogram

  // ----- what the fourteen labels spell -----

  lemma Label0(text: string)
    requires text == "<100 us"
    ensures Spelled(text) == Range(0, Some(100_000))
  {
    Units();
    ThreeDigits('1', '0', '0');
    BelowAmount(text, "", ['1', '0', '0'], "us");
  }

  lemma Label1(text: string)
    requires text == "<250 us"
    ensures Spelled(text) == Range(0, Some(250_000))
  {
    Units();
    ThreeDigits('2', '5', '0');
    BelowAmount(text, "", ['2', '5', '0'], "us");
  }

  lemma Label2(text: string)
    requires text == "<500 us"
    ensures Spelled(text) == Range(0, Some(500_000))
  {
    Units();
    ThreeDigits('5', '0', '0');
    BelowAmount(text, "", ['5', '0', '0'], "us");
  }

  lemma Label3(text: string)
    requires text == "<1 ms"
    ensures Spelled(text) == Range(0, Some(1_000_000))
  {
    Units();
    ThreeDigits('1', '0', '0');
    BelowAmount(text, "", ['1'], "ms");
  }

  lemma Label4(text: string)
    requires text == "<2 ms"
    ensures Spelled(text) == Range(0, Some(2_000_000))
  {
    Units();
    ThreeDigits('2', '0', '0');
    BelowAmount(text, "", ['2'], "ms");
  }

  lemma Label5(text: string)
    requires text == "<5 ms"
    ensures Spelled(text) == Range(0, Some(5_000_000))
  {
    Units();
    ThreeDigits('5', '0', '0');
    BelowAmount(text, "", ['5'], "ms");
  }

  lemma Label6(text: string)
    requires text == "<10 ms"
    ensures Spelled(text) == Range(0, Some(10_000_000))
  {
    Units();
    ThreeDigits('1', '0', '0');
    BelowAmount(text, "", ['1', '0'], "ms");
  }

  lemma Label7(text: string)
    requires text == "<20 ms"
    ensures Spelled(text) == Range(0, Some(20_000_000))
  {
    Units();
    ThreeDigits('2', '0', '0');
    BelowAmount(text, "", ['2', '0'], "ms");
  }

  lemma Label8(text: string)
    requires text == "<50 ms"
    ensures Spelled(text) == Range(0, Some(50_000_000))
  {
    Units();
    ThreeDigits('5', '0', '0');
    BelowAmount(text, "", ['5', '0'], "ms");
  }

  lemma Label9(text: string)
    requires text == "<100 ms"
    ensures Spelled(text) == Range(0, Some(100_000_000))
  {
    Units();
    ThreeDigits('1', '0', '0');
    BelowAmount(text, "", ['1', '0', '0'], "ms");
  }

  lemma Label10(text: string)
    requires text == "<250 ms"
    ensures Spelled(text) == Range(0, Some(250_000_000))
  {
    Units();
    ThreeDigits('2', '5', '0');
    BelowAmount(text, "", ['2', '5', '0'], "ms");
  }

  lemma Label11(text: string)
    requires text == "<500 ms"
    ensures Spelled(text) == Range(0, Some(500_000_000))
  {
    Units();
    ThreeDigits('5', '0', '0');
    BelowAmount(text, "", ['5', '0', '0'], "ms");
  }

  lemma Label12(text: string)
    requires text == "<1 s"
    ensures Spelled(text) == Range(0, Some(1_000_000_000))
  {
    Units();
    ThreeDigits('1', '0', '0');
    BelowAmount(text, "", ['1'], "s");
  }

  lemma Label13(text: string)
    requires text == "1 s+"
    ensures Spelled(text) == Range(1_000_000_000, None)
  {
    Units();
    ThreeDigits('1', '0', '0');
    FromAmount(text, ['1'], "s");
  }

  /** A label's range ends at the bucket's bound, and the last one starts there. */
  lemma LabelRange(b: nat)
    requires b < BUCKETS
    ensures Spelled(LABELS[b]) == if b == BUCKETS - 1 then Range(Limit(b), None) else Range(0, Some(Limit(b + 1)))
  {
    match b
    case 0 => Label0(LABELS[b]);
    case 1 => Label1(LABELS[b]);
    case 2 => Label2(LABELS[b]);
    case 3 => Label3(LABELS[b]);
    case 4 => Label4(LABELS[b]);
    case 5 => Label5(LABELS[b]);
    case 6 => Label6(LABELS[b]);
    case 7 => Label7(LABELS[b]);
    case 8 => Label8(LABELS[b]);
    case 9 => Label9(LABELS[b]);
    case 10 => Label10(LABELS[b]);
    case 11 => Label11(LABELS[b]);
    case 12 => Label12(LABELS[b]);
    case 13 => Label13(LABELS[b]);
  }

  /** The ranges that the labels spell. */
  ghost predicate Spell(ranges: seq<Range>) {
    && |ranges| == BUCKETS
    && forall b: nat {:trigger Spelled(LABELS[b])} :: b < BUCKETS ==> ranges[b] == Spelled(LABELS[b])
  }

  function LabelRanges(): (ranges: seq<Range>)
    ensures Spell(ranges)
  {
    seq(BUCKETS, b requires 0 <= b < BUCKETS => Spelled(LABELS[b]))
  }

  predicate EndsAtLimit(range: Range, b: nat)
    requires b < BUCKETS
  {
    range == if b == BUCKETS - 1 then Range(Limit(b), None) else Range(0, Some(Limit(b + 1)))
  }

  ghost predicate EndAtLimits(ranges: seq<Range>) {
    |ranges| == BUCKETS && forall b: nat {:trigger EndsAtLimit(ranges[b], b)} :: b < BUCKETS ==> EndsAtLimit(ranges[b], b)
  }

  lemma SpelledRanges(ranges: seq<Range>)
    requires Spell(ranges)
    ensures EndAtLimits(ranges)
  {
    forall b: nat | b < BUCKETS
      ensures EndsAtLimit(ranges[b], b)
    {
      assert ranges[b] == Spelled(LABELS[b]);
      LabelRange(b);
    }
  }

  /** The first range that holds a latency. */
  ghost predicate FirstWithin(ranges: seq<Range>, x: u64, b: nat) {
    b < |ranges| && Within(ranges[b], x) && forall a: nat :: a < b ==> !Within(ranges[a], x)
  }

  lemma FirstIsBucket(ranges: seq<Range>, x: u64, b: nat)
    requires EndAtLimits(ranges) && b < BUCKETS
    ensures FirstWithin(ranges, x, b) <==> b == BucketOf(x)
  {
    var own := BucketOf(x);
    forall a: nat | a < own
      ensures !Within(ranges[a], x)
    {
      assert EndsAtLimit(ranges[a], a);
      if a + 1 < own { LimitsIncrease(a + 1, own); }
    }
    assert EndsAtLimit(ranges[own], own) && EndsAtLimit(ranges[b], b);
    assert Within(ranges[own], x);
  }

  /** A latency goes to the bucket of the first label whose range holds it. */
  lemma LabelOfLatency(ranges: seq<Range>, x: u64, b: nat)
    requires Spell(ranges) && b < BUCKETS
    ensures FirstWithin(ranges, x, b) <==> b == BucketOf(x)
  {
    SpelledRanges(ranges);
    FirstIsBucket(ranges, x, b);
  }

  /** How many latencies have this range as their first. */
  ghost function CountFirst(ranges: seq<Range>, xs: seq<u64>, b: nat): nat {
    if xs == [] then 0
    else CountFirst(ranges, xs[..|xs| - 1], b) + (if FirstWithin(ranges, xs[|xs| - 1], b) then 1 else 0)
  }

  lemma BelowOneLimit(x: u64, b: nat)
    requires b < BUCKETS
    ensures (x < Limit(b + 1) && !(x < Limit(b))) <==> b == BucketOf(x)
  {
    var own := BucketOf(x);
    if b < own && b + 1 < own { LimitsIncrease(b + 1, own); }
    if own + 1 < b { LimitsIncrease(own + 1, b); }
  }

  lemma {:induction false} CountIsFirst(ranges: seq<Range>, xs: seq<u64>, b: nat)
    requires EndAtLimits(ranges) && b < BUCKETS
    ensures CountIn(xs, b) == CountFirst(ranges, xs, b)
  {
    if xs == [] {
    } else {
      var x := xs[|xs| - 1];
      CountIsFirst(ranges, xs[..|xs| - 1], b);
      FirstIsBucket(ranges, x, b);
      BelowOneLimit(x, b);
      LimitsIncrease(b, b + 1);
    }
  }

  /** Each published bucket counts the latencies whose first label is its own, and shows
      their share. */
  lemma BucketsByLabel(ranges: seq<Range>, h: Totals, xs: seq<u64>, b: nat)
    requires Spell(ranges) && Describes(h, xs) && b < BUCKETS
    ensures h.buckets[b] == CountFirst(ranges, xs, b)
    ensures IsShare(Share(h, b), h.buckets[b], |xs|)
  {
    SpelledRanges(ranges);
    CountIsFirst(ranges, xs, b);
    CountBelowMonotone(xs, Limit(b + 1), Limit(b + 1));
    ShareTimes(h, b);
  }

  /** A percentage of a whole. */
  predicate IsShare(percent: real, part: nat, whole: nat) {
    percent * whole as real == 100.0 * part as real
  }

  lemma ShareTimes(h: Totals, b: nat)
    requires b < BUCKETS && (h.count == 0 ==> h.buckets[b] == 0)
    ensures IsShare(Share(h, b), h.buckets[b], h.count)
  {
    if h.count > 0 { TimesQuotient(h.buckets[b] as real, h.count as real); }
  }

  lemma TimesQuotient(part: real, whole: real)
    requires whole > 0.0
    ensures part / whole * whole == part && part / whole * 100.0 * whole == 100.0 * part
  {
    var q := part / whole;
    assert q * whole == part;
  }

  // ----- the published figures -----

  /** The 1-based nearest rank of a percentile of n values: p hundredths of n, rounded up. */
  function NearestRank(percent: nat, n: nat): nat {
    (percent * n + 99) / 100
  }

  /** A figure in milliseconds is a number of nanoseconds. */
  predicate IsNs(ms: real, ns: nat) {
    1_000_000.0 * ms == ns as real
  }

  /** A figure in milliseconds is the average of n values with a sum in nanoseconds. */
  predicate IsAverage(ms: real, n: nat, sum: nat) {
    1_000_000.0 * (ms * n as real) == sum as real
  }

  /** A figure in milliseconds stands for a latency: it is the end of the first range that
      holds the latency, or the maximum for the range without an end. */
  ghost predicate StandsFor(ranges: seq<Range>, ms: real, x: u64, maximum: u64) {
    exists b: nat :: FirstWithin(ranges, x, b) &&
      if ranges[b].high.Some? then IsNs(ms, ranges[b].high.value) else x <= maximum && IsNs(ms, maximum)
  }

  /** A figure stands for the latency of a nearest rank. */
  ghost predicate StandsForRank(ranges: seq<Range>, ms: real, sorted: seq<u64>, percent: nat) {
    var rank := NearestRank(percent, |sorted|);
    1 <= rank <= |sorted| && StandsFor(ranges, ms, sorted[rank - 1], sorted[|sorted| - 1])
  }

  lemma RankIsNearest(percent: nat, p: real, n: u64)
    requires 1 <= percent && 100.0 * p == percent as real && n > 0
    ensures Rank(p, n) == NearestRank(percent, n)
  {
    var k, exact := NearestRank(percent, n), p * n as real;
    assert 100.0 * exact == percent as real * n as real == (percent * n) as real;
    assert 100 * k >= percent * n > 100 * (k - 1);
    assert k as real >= exact > k as real - 1.0;
  }

  lemma BracketStands(ranges: seq<Range>, ns: u64, x: u64, b: nat, maximum: u64)
    requires EndAtLimits(ranges) && Brackets(x, b, ns, maximum)
    ensures StandsFor(ranges, NsToMs(ns), x, maximum)
  {
    BucketBetween(x, b);
    FirstIsBucket(ranges, x, b);
    assert EndsAtLimit(ranges[b], b);
    NsTimes(ns);
  }

  lemma BucketBetween(x: u64, b: nat)
    requires b < BUCKETS && Limit(b) <= x < Limit(b + 1)
    ensures b == BucketOf(x)
  {
    BelowOneLimit(x, b);
  }

  lemma NsTimes(ns: u64)
    ensures IsNs(NsToMs(ns), ns)
  {
  }

  lemma PublishedPercentile(ranges: seq<Range>, h: Totals, xs: seq<u64>, sorted: seq<u64>, p: real, rank: nat)
    requires Describes(h, xs) && 0 < |xs| < TWO_64 && 0.0 < p <= 1.0 && rank == Rank(p, |xs|) && EndAtLimits(ranges)
    requires Sorted(sorted) && multiset(sorted) == multiset(xs)
    ensures 1 <= rank <= |sorted| && StandsFor(ranges, NsToMs(PercentileNs(h, p)), sorted[rank - 1], h.maxNs)
  {
    RankInRange(p, |xs|);
    SameLength(xs, sorted);
    RankBrackets(h, xs, sorted, rank);
    BracketStands(ranges, PercentileNs(h, p), sorted[rank - 1], PickedBucket(h, p), h.maxNs);
  }

  lemma {:induction false} SortedEnds(xs: seq<u64>, sorted: seq<u64>)
    requires xs != [] && Sorted(sorted) && multiset(sorted) == multiset(xs)
    ensures |sorted| == |xs| && Minimum(xs) == sorted[0] && Maximum(xs) == sorted[|sorted| - 1]
  {
    SameLength(xs, sorted);
    InRange(xs, sorted, 0);
    InRange(xs, sorted, |sorted| - 1);
    ExtremesOccur(xs);
    assert Minimum(xs) in multiset(sorted) && Maximum(xs) in multiset(sorted);
  }

  lemma {:induction false} ExtremesOccur(xs: seq<u64>)
    requires xs != []
    ensures Minimum(xs) in multiset(xs) && Maximum(xs) in multiset(xs)
  {
    if |xs| == 1 {
    } else {
      var n := |xs| - 1;
      ExtremesOccur(xs[..n]);
      assert xs == xs[..n] + [xs[n]];
    }
  }

  lemma FiguresTimes(h: Totals)
    requires h.count > 0
    ensures var f := FiguresOf(h);
            IsNs(f.minimum, h.minNs) && IsNs(f.maximum, h.maxNs) && IsAverage(f.average, h.count, h.totalNs)
  {
    NsTimes(h.minNs);
    NsTimes(h.maxNs);
    AverageTimes(h.totalNs, h.count);
  }

  lemma AverageTimes(total: u64, n: nat)
    requires n > 0
    ensures IsAverage(NsToMs(total) / n as real, n, total)
  {
    NsTimes(total);
    TimesQuotient(NsToMs(total), n as real);
  }

  /** The published extremes are those of the latencies, and the published average times
      their number is their sum, clamped. */
  lemma FiguresAreExact(h: Totals, xs: seq<u64>, sorted: seq<u64>)
    requires Describes(h, xs) && xs != [] && Sorted(sorted) && multiset(sorted) == multiset(xs)
    ensures var f := FiguresOf(h);
            && |sorted| == |xs| && IsNs(f.minimum, sorted[0]) && IsNs(f.maximum, sorted[|xs| - 1])
            && IsAverage(f.average, |xs|, Min(Sum(xs), MAX_U64))
  {
    FiguresTimes(h);
    SortedEnds(xs, sorted);
  }

  lemma PercentileStands(ranges: seq<Range>, h: Totals, xs: seq<u64>, sorted: seq<u64>, percent: nat, p: real)
    requires EndAtLimits(ranges) && Describes(h, xs) && 0 < |xs| < TWO_64
    requires Sorted(sorted) && multiset(sorted) == multiset(xs)
    requires 1 <= percent <= 100 && 100.0 * p == percent as real
    ensures StandsForRank(ranges, NsToMs(PercentileNs(h, p)), sorted, percent)
  {
    SortedEnds(xs, sorted);
    RankIsNearest(percent, p, |xs|);
    PublishedPercentile(ranges, h, xs, sorted, p, NearestRank(percent, |xs|));
  }

  /** The published percentiles stand for the latencies of nearest rank: the 50th, 95th and
      99th hundredth of the sorted list. */
  lemma FiguresArePercentiles(ranges: seq<Range>, h: Totals, xs: seq<u64>, sorted: seq<u64>)
    requires Spell(ranges) && Describes(h, xs) && 0 < |xs| < TWO_64
    requires Sorted(sorted) && multiset(sorted) == multiset(xs)
    ensures var f := FiguresOf(h);
            StandsForRank(ranges, f.p50, sorted, 50) && StandsForRank(ranges, f.p95, sorted, 95)
            && StandsForRank(ranges, f.p99, sorted, 99)
  {
    SpelledRanges(ranges);
    PercentileStands(ranges, h, xs, sorted, 50, 0.50);
    PercentileStands(ranges, h, xs, sorted, 95, 0.95);
    PercentileStands(ranges, h, xs, sorted, 99, 0.99);
  }

  /** What the six published figures say about a list of latencies. */
  ghost predicate Publishes(f: Figures, ranges: seq<Range>, xs: seq<u64>, sorted: seq<u64>) {
    && |sorted| == |xs| > 0 && IsNs(f.minimum, sorted[0]) && IsNs(f.maximum, sorted[|xs| - 1])
    && IsAverage(f.average, |xs|, Min(Sum(xs), MAX_U64))
    && StandsForRank(ranges, f.p50, sorted, 50) && StandsForRank(ranges, f.p95, sorted, 95)
    && StandsForRank(ranges, f.p99, sorted, 99)
  }

  lemma DescribedSummary(ranges: seq<Range>, h: Totals, xs: seq<u64>, sorted: seq<u64>)
    requires Spell(ranges) && Describes(h, xs) && 0 < |xs| < TWO_64
    requires Sorted(sorted) && multiset(sorted) == multiset(xs)
    ensures Publishes(FiguresOf(h), ranges, xs, sorted)
  {
    FiguresAreExact(h, xs, sorted);
    FiguresArePercentiles(ranges, h, xs, sorted);
  }

  /** The summary of a histogram that observed a list says what the list says. */
  lemma SummaryOfLog(ranges: seq<Range>, xs: seq<u64>, sorted: seq<u64>)
    requires Spell(ranges) && 0 < |xs| < TWO_64 && Sorted(sorted) && multiset(sorted) == multiset(xs)
    ensures Publishes(FiguresOf(FromLog(xs)), ranges, xs, sorted)
  {
    FromLogDescribes(xs);
    DescribedSummary(ranges, FromLog(xs), xs, sorted);
  }

  /** Without latencies every figure is zero. */
  lemma EmptySummary()
    ensures FiguresOf(FromLog([])) == Figures(0.0, 0.0, 0.0, 0.0, 0.0, 0.0) && PercentileNs(FromLog([]), 0.5) == 0
  {
  }
}
