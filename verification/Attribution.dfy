/** The attribution partitions: host latencies into VMs and the unmapped rest, and each
    VM's into operations and into devices, bucket by bucket. */
module Attribution {
  import opened Words
  import opened Logs
  import opened Histogram
  import opened Devices
  import opened Aggregator
  import opened EventLog

  /** The latencies of a group that are below a bound. */
  function Weight(c: Config, ms: seq<Measurement>, sel: Selector, bound: nat): nat {
    CountBelow(Select(c, ms, sel), bound)
  }

  function Counts(c: Config, m: Measurement, sel: Selector, bound: nat): nat {
    OneIf(Matches(c, m, sel) && m.latencyNs < bound)
  }

  lemma WeightOne(c: Config, ms: seq<Measurement>, m: Measurement, sel: Selector, bound: nat)
    ensures Weight(c, ms + [m], sel, bound) == Weight(c, ms, sel, bound) + Counts(c, m, sel, bound)
  {
    var xs, ys := Select(c, ms, sel), Select(c, ms + [m], sel);
    SelectOne(c, ms, m, sel);
    if Matches(c, m, sel) {
      assert ys == xs + [m.latencyNs];
      CountBelowOne(xs, m.latencyNs, bound);
    } else {
      assert ys == xs;
    }
  }

  lemma Split(ms: seq<Measurement>)
    requires ms != []
    ensures ms[..|ms| - 1] + [ms[|ms| - 1]] == ms
  {
  }

  // ----- the host: VMs and the unmapped rest -----

  ghost predicate IndexBelow(c: Config, n: nat) {
    forall id :: id in c.index ==> c.index[id] < n
  }

  function SumVMs(c: Config, ms: seq<Measurement>, n: nat, bound: nat): nat {
    if n == 0 then 0 else SumVMs(c, ms, n - 1, bound) + Weight(c, ms, OfVM(n - 1), bound)
  }

  lemma {:induction false} SumVMsOne(c: Config, ms: seq<Measurement>, m: Measurement, n: nat, bound: nat)
    ensures SumVMs(c, ms + [m], n, bound)
            == SumVMs(c, ms, n, bound)
               + OneIf(m.issue.cgroupId in c.index && c.index[m.issue.cgroupId] < n && m.latencyNs < bound)
  {
    if n == 0 {
    } else {
      SumVMsOne(c, ms, m, n - 1, bound);
      WeightOne(c, ms, m, OfVM(n - 1), bound);
    }
  }

  lemma {:induction false} SumVMsNone(c: Config, n: nat, bound: nat)
    ensures SumVMs(c, [], n, bound) == 0
  {
    if n == 0 {
    } else {
      SumVMsNone(c, n - 1, bound);
    }
  }

  lemma {:induction false} HostPartition(c: Config, ms: seq<Measurement>, n: nat, bound: nat)
    requires IndexBelow(c, n)
    ensures Weight(c, ms, Everything, bound) == SumVMs(c, ms, n, bound) + Weight(c, ms, Unmapped, bound)
  {
    if ms == [] {
      SumVMsNone(c, n, bound);
    } else {
      var front, m := ms[..|ms| - 1], ms[|ms| - 1];
      Split(ms);
      HostPartition(c, front, n, bound);
      SumVMsOne(c, front, m, n, bound);
      WeightOne(c, front, m, Everything, bound);
      WeightOne(c, front, m, Unmapped, bound);
    }
  }

  // ----- one VM: operations and devices -----

  function SumOperations(c: Config, ms: seq<Measurement>, vm: nat, bound: nat): nat {
    Weight(c, ms, OfOperation(vm, Read), bound) + Weight(c, ms, OfOperation(vm, Write), bound)
    + Weight(c, ms, OfOperation(vm, Flush), bound) + Weight(c, ms, OfOperation(vm, Discard), bound)
    + Weight(c, ms, OfOperation(vm, Unknown), bound)
  }

  lemma OperationsOne(c: Config, m: Measurement, vm: nat, bound: nat)
    ensures Counts(c, m, OfVM(vm), bound)
            == Counts(c, m, OfOperation(vm, Read), bound) + Counts(c, m, OfOperation(vm, Write), bound)
               + Counts(c, m, OfOperation(vm, Flush), bound) + Counts(c, m, OfOperation(vm, Discard), bound)
               + Counts(c, m, OfOperation(vm, Unknown), bound)
  {
  }

  lemma {:induction false} OperationPartition(c: Config, ms: seq<Measurement>, vm: nat, bound: nat)
    ensures Weight(c, ms, OfVM(vm), bound) == SumOperations(c, ms, vm, bound)
  {
    if ms == [] {
    } else {
      var front, m := ms[..|ms| - 1], ms[|ms| - 1];
      Split(ms);
      OperationPartition(c, front, vm, bound);
      OperationsOne(c, m, vm, bound);
      WeightOne(c, front, m, OfVM(vm), bound);
      WeightOne(c, front, m, OfOperation(vm, Read), bound);
      WeightOne(c, front, m, OfOperation(vm, Write), bound);
      WeightOne(c, front, m, OfOperation(vm, Flush), bound);
      WeightOne(c, front, m, OfOperation(vm, Discard), bound);
      WeightOne(c, front, m, OfOperation(vm, Unknown), bound);
    }
  }

  function SumDevices(c: Config, ms: seq<Measurement>, vm: nat, keys: seq<DeviceOperation>, bound: nat): nat {
    if keys == [] then 0
    else SumDevices(c, ms, vm, keys[..|keys| - 1], bound) + Weight(c, ms, OfDevice(vm, keys[|keys| - 1]), bound)
  }

  /** The list names each key once. */
  ghost predicate Distinct(keys: seq<DeviceOperation>) {
    forall i, j :: 0 <= i < j < |keys| ==> keys[i] != keys[j]
  }

  lemma {:induction false} SumDevicesOne(c: Config, ms: seq<Measurement>, m: Measurement, vm: nat,
                                         keys: seq<DeviceOperation>, bound: nat)
    requires Distinct(keys)
    ensures SumDevices(c, ms + [m], vm, keys, bound)
            == SumDevices(c, ms, vm, keys, bound)
               + OneIf(Matches(c, m, OfVM(vm)) && KeyOf(m.issue) in keys && m.latencyNs < bound)
  {
    if keys == [] {
    } else {
      var front, key := keys[..|keys| - 1], keys[|keys| - 1];
      SumDevicesOne(c, ms, m, vm, front, bound);
      WeightOne(c, ms, m, OfDevice(vm, key), bound);
      assert keys == front + [key];
      assert key !in front;
    }
  }

  lemma {:induction false} SumDevicesNone(c: Config, vm: nat, keys: seq<DeviceOperation>, bound: nat)
    ensures SumDevices(c, [], vm, keys, bound) == 0
  {
    if keys == [] {
    } else {
      SumDevicesNone(c, vm, keys[..|keys| - 1], bound);
    }
  }

  /** Every device and operation the VM completed a request for is in the list. */
  ghost predicate Covers(c: Config, ms: seq<Measurement>, vm: nat, keys: seq<DeviceOperation>) {
    forall key :: Select(c, ms, OfDevice(vm, key)) != [] ==> key in keys
  }

  lemma CoversFront(c: Config, ms: seq<Measurement>, m: Measurement, vm: nat, keys: seq<DeviceOperation>)
    requires Covers(c, ms + [m], vm, keys)
    ensures Covers(c, ms, vm, keys)
    ensures Matches(c, m, OfVM(vm)) ==> KeyOf(m.issue) in keys
  {
    forall key
      ensures Select(c, ms, OfDevice(vm, key)) != [] ==> key in keys
      ensures Matches(c, m, OfDevice(vm, key)) ==> key in keys
    {
      SelectOne(c, ms, m, OfDevice(vm, key));
    }
    assert Matches(c, m, OfDevice(vm, KeyOf(m.issue))) <==> Matches(c, m, OfVM(vm));
  }

  lemma {:induction false} DevicePartition(c: Config, ms: seq<Measurement>, vm: nat, keys: seq<DeviceOperation>, bound: nat)
    requires Distinct(keys) && Covers(c, ms, vm, keys)
    ensures Weight(c, ms, OfVM(vm), bound) == SumDevices(c, ms, vm, keys, bound)
  {
    if ms == [] {
      SumDevicesNone(c, vm, keys, bound);
    } else {
      var front, m := ms[..|ms| - 1], ms[|ms| - 1];
      Split(ms);
      CoversFront(c, front, m, vm, keys);
      DevicePartition(c, front, vm, keys, bound);
      SumDevicesOne(c, front, m, vm, keys, bound);
      WeightOne(c, front, m, OfVM(vm), bound);
    }
  }

  // ----- what the aggregator holds -----

  /** A histogram's count and buckets are those of a group. */
  ghost predicate Weighed(c: Config, ms: seq<Measurement>, sel: Selector, h: Totals) {
    && h.count == Weight(c, ms, sel, TWO_64)
    && forall b :: 0 <= b < BUCKETS ==> h.buckets[b] == Weight(c, ms, sel, Limit(b + 1)) - Weight(c, ms, sel, Limit(b))
  }

  lemma GroupTotals(c: Config, ms: seq<Measurement>, sel: Selector)
    requires |ms| < TWO_64
    ensures Weighed(c, ms, sel, FromLog(Select(c, ms, sel)))
    ensures |Select(c, ms, sel)| == Weight(c, ms, sel, TWO_64) < TWO_64
  {
    SelectAtMost(c, ms, sel);
    FromLogDescribes(Select(c, ms, sel));
    AllBelow(Select(c, ms, sel), TWO_64);
  }

  lemma VMWeighed(c: Config, ms: seq<Measurement>, s: State, vm: nat)
    requires Attributed(c, ms, s) && |ms| < TWO_64
    ensures Weighed(c, ms, OfVM(vm), VMTotals(s, vm))
  {
    assert AccumulatorAgrees(c, ms, vm, Lookup(s.byVM, vm, NEW_ACCUMULATOR));
    GroupTotals(c, ms, OfVM(vm));
  }

  lemma {:induction false} SelectAtMost(c: Config, ms: seq<Measurement>, sel: Selector)
    ensures |Select(c, ms, sel)| <= |ms|
  {
    if ms == [] {
    } else {
      SelectAtMost(c, ms[..|ms| - 1], sel);
    }
  }

  function VMTotals(s: State, vm: nat): Totals {
    Lookup(s.byVM, vm, NEW_ACCUMULATOR).latency
  }

  function SumCounts(s: State, n: nat): nat {
    if n == 0 then 0 else SumCounts(s, n - 1) + VMTotals(s, n - 1).count
  }

  function SumBuckets(s: State, n: nat, b: nat): nat
    requires b < BUCKETS
  {
    if n == 0 then 0 else SumBuckets(s, n - 1, b) + VMTotals(s, n - 1).buckets[b]
  }

  lemma {:induction false} SumsAreWeights(c: Config, ms: seq<Measurement>, s: State, n: nat, b: nat)
    requires b < BUCKETS && forall vm: nat :: Weighed(c, ms, OfVM(vm), VMTotals(s, vm))
    ensures SumCounts(s, n) == SumVMs(c, ms, n, TWO_64)
    ensures SumBuckets(s, n, b) == SumVMs(c, ms, n, Limit(b + 1)) - SumVMs(c, ms, n, Limit(b))
  {
    if n == 0 {
    } else {
      SumsAreWeights(c, ms, s, n - 1, b);
      assert Weighed(c, ms, OfVM(n - 1), VMTotals(s, n - 1));
    }
  }

  /** The host histogram is the VMs' histograms and the unmapped latencies, in every
      bucket; its count is the VMs' counts and the unmapped counter. */
  lemma HostIsSumOfVMs(c: Config, events: seq<Event>, n: nat, b: nat)
    requires |events| < TWO_64 && IndexBelow(c, n) && b < BUCKETS
    ensures var s := RunAll(c, events);
            && s.host.count == SumCounts(s, n) + s.lost.unmappedCgroup
            && s.host.buckets[b] == SumBuckets(s, n, b) + CountIn(Select(c, Completed(c, events), Unmapped), b)
  {
    var ms := Completed(c, events);
    AttributionIsLog(c, events);
    CompletedCount(c, events);
    CountersAreTallies(c, events);
    forall vm: nat
      ensures Weighed(c, ms, OfVM(vm), VMTotals(RunAll(c, events), vm))
    {
      VMWeighed(c, ms, RunAll(c, events), vm);
    }
    SumsAreWeights(c, ms, RunAll(c, events), n, b);
    HostSplit(c, ms, RunAll(c, events), n, b);
  }

  lemma HostSplit(c: Config, ms: seq<Measurement>, s: State, n: nat, b: nat)
    requires s.host == FromLog(Select(c, ms, Everything)) && |ms| < TWO_64 && IndexBelow(c, n) && b < BUCKETS
    requires s.lost.unmappedCgroup == Wrap(|Select(c, ms, Unmapped)|)
    ensures s.host.count == SumVMs(c, ms, n, TWO_64) + s.lost.unmappedCgroup
    ensures s.host.buckets[b] == SumVMs(c, ms, n, Limit(b + 1)) - SumVMs(c, ms, n, Limit(b)) + CountIn(Select(c, ms, Unmapped), b)
  {
    GroupTotals(c, ms, Everything);
    GroupTotals(c, ms, Unmapped);
    SmallWrap(|Select(c, ms, Unmapped)|);
    HostPartition(c, ms, n, TWO_64);
    HostPartition(c, ms, n, Limit(b));
    HostPartition(c, ms, n, Limit(b + 1));
  }

  /** A VM's five operation counters add up to its count. */
  lemma OperationsAddUp(c: Config, events: seq<Event>, vm: nat)
    requires |events| < TWO_64 && vm in RunAll(c, events).byVM
    ensures var a := RunAll(c, events).byVM[vm]; a.latency.count == SumOf(a.operations)
  {
    AttributionIsLog(c, events);
    CompletedCount(c, events);
    VMOperations(c, Completed(c, events), RunAll(c, events), vm);
  }

  lemma OperationWeight(c: Config, ms: seq<Measurement>, vm: nat, op: Operation)
    requires |ms| < TWO_64
    ensures OperationCount(c, ms, vm, op) == Weight(c, ms, OfOperation(vm, op), TWO_64)
  {
    GroupTotals(c, ms, OfOperation(vm, op));
    SmallWrap(|Select(c, ms, OfOperation(vm, op))|);
  }

  lemma OperationWeights(c: Config, ms: seq<Measurement>, vm: nat, o: Operations)
    requires OperationsAgree(c, ms, vm, o) && |ms| < TWO_64
    ensures SumOf(o) == SumOperations(c, ms, vm, TWO_64)
  {
    OperationWeight(c, ms, vm, Read);
    OperationWeight(c, ms, vm, Write);
    OperationWeight(c, ms, vm, Flush);
    OperationWeight(c, ms, vm, Discard);
    OperationWeight(c, ms, vm, Unknown);
  }

  lemma VMOperations(c: Config, ms: seq<Measurement>, s: State, vm: nat)
    requires Attributed(c, ms, s) && |ms| < TWO_64
    ensures VMTotals(s, vm).count == SumOf(Lookup(s.byVM, vm, NEW_ACCUMULATOR).operations)
  {
    var a := Lookup(s.byVM, vm, NEW_ACCUMULATOR);
    assert AccumulatorAgrees(c, ms, vm, a);
    VMWeighed(c, ms, s, vm);
    OperationPartition(c, ms, vm, TWO_64);
    OperationWeights(c, ms, vm, a.operations);
  }

  function SumKeys(histograms: map<DeviceOperation, Totals>, keys: seq<DeviceOperation>, b: nat): nat
    requires b < BUCKETS
  {
    if keys == [] then 0
    else SumKeys(histograms, keys[..|keys| - 1], b) + Lookup(histograms, keys[|keys| - 1], Empty()).buckets[b]
  }

  lemma {:induction false} KeysAreWeights(c: Config, ms: seq<Measurement>, vm: nat,
                                          histograms: map<DeviceOperation, Totals>, keys: seq<DeviceOperation>, b: nat)
    requires DevicesAgree(c, ms, vm, histograms) && |ms| < TWO_64 && b < BUCKETS
    ensures SumKeys(histograms, keys, b)
            == SumDevices(c, ms, vm, keys, Limit(b + 1)) - SumDevices(c, ms, vm, keys, Limit(b))
  {
    if keys == [] {
    } else {
      KeysAreWeights(c, ms, vm, histograms, keys[..|keys| - 1], b);
      assert DeviceAgrees(c, ms, vm, histograms, keys[|keys| - 1]);
      GroupTotals(c, ms, OfDevice(vm, keys[|keys| - 1]));
    }
  }

  /** A VM's per-device histograms add up to its histogram in every bucket, however they
      are listed. */
  lemma DevicesAddUp(c: Config, events: seq<Event>, vm: nat, keys: seq<DeviceOperation>, b: nat)
    requires |events| < TWO_64 && vm in RunAll(c, events).byVM && b < BUCKETS
    requires Distinct(keys) && forall key :: key in keys <==> key in RunAll(c, events).byVM[vm].deviceOperations
    ensures var a := RunAll(c, events).byVM[vm]; a.latency.buckets[b] == SumKeys(a.deviceOperations, keys, b)
  {
    AttributionIsLog(c, events);
    CompletedCount(c, events);
    var s := RunAll(c, events);
    assert AccumulatorAgrees(c, Completed(c, events), vm, Lookup(s.byVM, vm, NEW_ACCUMULATOR));
    VMWeighed(c, Completed(c, events), s, vm);
    VMDevices(c, Completed(c, events), vm, s.byVM[vm], keys, b);
  }

  lemma VMDevices(c: Config, ms: seq<Measurement>, vm: nat, a: Accumulator, keys: seq<DeviceOperation>, b: nat)
    requires Weighed(c, ms, OfVM(vm), a.latency) && DevicesAgree(c, ms, vm, a.deviceOperations)
    requires |ms| < TWO_64 && b < BUCKETS
    requires Distinct(keys) && forall key :: key in keys <==> key in a.deviceOperations
    ensures a.latency.buckets[b] == SumKeys(a.deviceOperations, keys, b)
  {
    forall key
      ensures Select(c, ms, OfDevice(vm, key)) != [] ==> key in keys
    {
      assert DeviceAgrees(c, ms, vm, a.deviceOperations, key);
    }
    KeysAreWeights(c, ms, vm, a.deviceOperations, keys, b);
    DevicePartition(c, ms, vm, keys, Limit(b));
    DevicePartition(c, ms, vm, keys, Limit(b + 1));
  }
}
