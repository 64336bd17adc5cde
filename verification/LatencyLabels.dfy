/** The buckets of the latency programs hold what their labels spell. */
module LatencyLabels {
  import opened Words
  import opened Labels
  import opened Bpf
  import opened LatencyPrograms
  import opened LatencyExecution
  import opened LatencyRuns

  // ----- what the ten labels spell -----

  lemma TenMicroseconds(text: string)
    requires text == "< 10 us"
    ensures Spelled(text) == Range(0, Some(10_000))
  {
    Units();
    ThreeDigits('1', '0', '0');
    BelowAmount(text, " ", ['1', '0'], "us");
  }

  lemma Label0()
    ensures Spelled(BUCKET_LABELS[0]) == Range(0, Some(10_000))
  {
    TenMicroseconds(BUCKET_LABELS[0]);
  }

  lemma Label1()
    ensures Spelled(BUCKET_LABELS[1]) == Range(10_000, Some(50_000))
  {
    Units();
    ThreeDigits('1', '0', '0');
    ThreeDigits('4', '9', '0');
    BetweenAmounts(BUCKET_LABELS[1], ['1', '0'], ['4', '9'], "us");
  }

  lemma Label2()
    ensures Spelled(BUCKET_LABELS[2]) == Range(50_000, Some(100_000))
  {
    Units();
    ThreeDigits('5', '0', '0');
    ThreeDigits('9', '9', '0');
    BetweenAmounts(BUCKET_LABELS[2], ['5', '0'], ['9', '9'], "us");
  }

  lemma Label3()
    ensures Spelled(BUCKET_LABELS[3]) == Range(100_000, Some(500_000))
  {
    BetweenMicroseconds(BUCKET_LABELS[3], '1', '0', '0', '4', '9', '9');
  }

  lemma Label4()
    ensures Spelled(BUCKET_LABELS[4]) == Range(500_000, Some(1_000_000))
  {
    BetweenMicroseconds(BUCKET_LABELS[4], '5', '0', '0', '9', '9', '9');
  }

  lemma Label5()
    ensures Spelled(BUCKET_LABELS[5]) == Range(1_000_000, Some(5_000_000))
  {
    ThreeDigits('1', '0', '0');
    ThreeDigits('4', '0', '0');
    BetweenMilliseconds(BUCKET_LABELS[5], ['1'], ['4']);
  }

  lemma Label6()
    ensures Spelled(BUCKET_LABELS[6]) == Range(5_000_000, Some(10_000_000))
  {
    ThreeDigits('5', '0', '0');
    ThreeDigits('9', '0', '0');
    BetweenMilliseconds(BUCKET_LABELS[6], ['5'], ['9']);
  }

  lemma Label7()
    ensures Spelled(BUCKET_LABELS[7]) == Range(10_000_000, Some(50_000_000))
  {
    ThreeDigits('1', '0', '0');
    ThreeDigits('4', '9', '0');
    BetweenMilliseconds(BUCKET_LABELS[7], ['1', '0'], ['4', '9']);
  }

  lemma Label8()
    ensures Spelled(BUCKET_LABELS[8]) == Range(50_000_000, Some(100_000_000))
  {
    ThreeDigits('5', '0', '0');
    ThreeDigits('9', '9', '0');
    BetweenMilliseconds(BUCKET_LABELS[8], ['5', '0'], ['9', '9']);
  }

  lemma Label9()
    ensures Spelled(BUCKET_LABELS[9]) == Range(100_000_000, None)
  {
    Units();
    ThreeDigits('1', '0', '0');
    FromAmount(BUCKET_LABELS[9], ['1', '0', '0'], "ms");
  }

  /** The labels' ranges meet at the bounds the program compares with. */
  lemma LabelRange(i: nat)
    requires i < BUCKET_COUNT
    ensures Spelled(BUCKET_LABELS[i])
            == Range(if i == 0 then 0 else UPPER_NS[i - 1], if i == 9 then None else Some(UPPER_NS[i]))
  {
    match i
    case 0 => Label0();
    case 1 => Label1();
    case 2 => Label2();
    case 3 => Label3();
    case 4 => Label4();
    case 5 => Label5();
    case 6 => Label6();
    case 7 => Label7();
    case 8 => Label8();
    case 9 => Label9();
  }

  // ----- the buckets agree -----

  /** A latency goes to the one bucket whose label covers it. */
  lemma LabelOfLatency(x: u64, i: nat)
    requires i < BUCKET_COUNT
    ensures Within(Spelled(BUCKET_LABELS[i]), x) <==> i == BucketOf(x)
  {
    LabelRange(i);
    OneBucket(x, i);
  }

  lemma {:induction false} CountIsCovered(xs: seq<u64>, i: nat)
    requires i < BUCKET_COUNT
    ensures CountIn(xs, i) == Covered(xs, BUCKET_LABELS[i])
  {
    if xs == [] {
    } else {
      var x := xs[|xs| - 1];
      CountIsCovered(xs[..|xs| - 1], i);
      LabelOfLatency(x, i);
      OneBucket(x, i);
    }
  }

  /** The cell of the current CPU after one more latency. */
  ghost predicate Grows(before: Cell, after: Cell, latency: u64) {
    && |before| == |after| == CELL_WORDS
    && after[0] == Wrap(before[0] as int + 1) && after[1] == Wrap(before[1] as int + latency)
    && after[2] == Max(before[2], latency)
    && forall i: nat {:trigger BucketGrows(before, after, latency, i)} :: i < BUCKET_COUNT ==> BucketGrows(before, after, latency, i)
  }

  /** A bucket counts the latencies that its label covers. */
  ghost predicate BucketGrows(before: Cell, after: Cell, latency: u64, i: nat)
    requires |before| == |after| == CELL_WORDS && i < BUCKET_COUNT
  {
    after[3 + i] == if Within(Spelled(BUCKET_LABELS[i]), latency) then Wrap(before[3 + i] as int + 1) else before[3 + i]
  }

  lemma RecordGrows(cell: Cell, latency: u64)
    requires |cell| == CELL_WORDS
    ensures Grows(cell, Record(cell, latency), latency)
  {
    forall i: nat | i < BUCKET_COUNT
      ensures BucketGrows(cell, Record(cell, latency), latency, i)
    {
      LabelOfLatency(latency, i);
      RecordedBucket(cell, latency, i);
    }
  }

  /** What a completion of a pending request leaves behind: no entry, and in the cell of
      its CPU, if there is one, one more latency. */
  ghost predicate Completes(before: Kernel, after: Kernel, key: Key, latency: u64) {
    && after.entries == before.entries - {key} && |after.cells| == |before.cells|
    && after.hashFd == before.hashFd && after.arrayFd == before.arrayFd
    && (before.cells != [] ==> Grows(before.cells[0], after.cells[0], latency))
    && forall c :: 0 < c < |before.cells| ==> after.cells[c] == before.cells[c]
  }

  lemma EffectCompletes(k: Kernel, key: Key, now: u64)
    requires key in k.entries && forall i :: 0 <= i < |k.cells| ==> |k.cells[i]| == CELL_WORDS
    ensures Completes(k, CompleteEffect(k, key, now), key, Wrap(now as int - k.entries[key]))
  {
    if k.cells != [] { RecordGrows(k.cells[0], Wrap(now as int - k.entries[key])); }
  }

  /** Running the completion bytecode for a pending request takes its entry out and, when
      the cell exists, adds to the count, the total, the maximum and the one bucket whose
      label covers the latency. */
  lemma CompletionGrowsLabel(startFd: int, statsFd: int, fields: KeyFields, env: Env, kernel: Kernel, fuel: nat, key: Key)
    returns (after: Kernel)
    requires Wired(kernel, startFd, statsFd)
    requires Readable(env.context, fields.dev) && Readable(env.context, fields.sector)
    requires fuel >= |CompleteCode(startFd, statsFd, fields)|
    requires key == KeyOf(env.order, env.context, fields) && key in kernel.entries
    ensures Run(CompleteCode(startFd, statsFd, fields), env, Start(kernel), fuel) == Halted(0, after)
    ensures Completes(kernel, after, key, Wrap(env.now as int - kernel.entries[key]))
  {
    CompleteIsCorrect(startFd, statsFd, fields, env, kernel, fuel);
    EffectCompletes(kernel, key, env.now);
    after := CompleteEffect(kernel, key, env.now);
  }

  /** A result that summarises a log counts under each label, modulo 2^64, the latencies
      the label covers. */
  lemma ResultByLabel(r: LatencyResult, xs: seq<u64>, i: nat)
    requires Summarises(r, xs) && i < BUCKET_COUNT
    ensures r.histogram[i] == Wrap(Covered(xs, BUCKET_LABELS[i]))
  {
    CountIsCovered(xs, i);
  }

  // ----- publishing a result -----

  datatype HistogramBucket = HistogramBucket(range: string, requests: u64, percent: real)

  method LatencyHistogram(result: LatencyResult) returns (buckets: seq<HistogramBucket>)
    requires |result.histogram| == BUCKET_COUNT
    ensures |buckets| == BUCKET_COUNT
    ensures forall i :: 0 <= i < BUCKET_COUNT ==>
              && buckets[i].range == BUCKET_LABELS[i] && buckets[i].requests == result.histogram[i]
              && buckets[i].percent * result.completedRequests as real
                 == if result.completedRequests > 0 then 100.0 * result.histogram[i] as real else 0.0
  {
    buckets := [];
    for index := 0 to |BUCKET_LABELS|
      invariant |buckets| == index
      invariant forall i :: 0 <= i < index ==>
                  && buckets[i].range == BUCKET_LABELS[i] && buckets[i].requests == result.histogram[i]
                  && buckets[i].percent * result.completedRequests as real
                     == if result.completedRequests > 0 then 100.0 * result.histogram[i] as real else 0.0
    {
      var percent := 0.0;
      if result.completedRequests > 0 {
        percent := result.histogram[index] as real / result.completedRequests as real * 100.0;
        ShareOf(result.histogram[index] as real, result.completedRequests as real);
      }
      buckets := buckets + [HistogramBucket(BUCKET_LABELS[index], result.histogram[index], percent)];
    }
  }

  lemma ShareOf(part: real, whole: real)
    requires whole > 0.0
    ensures part / whole * 100.0 * whole == 100.0 * part
  {
    var q := part / whole;
    assert q * whole == part;
  }
}
