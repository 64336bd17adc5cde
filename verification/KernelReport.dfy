/** What the kernel's statistics add to a report: every loss, and every VM's operations and
    devices, in terms of the events, the kernel's own counters and the values' texts. */
module KernelReport {
  import opened Words
  import opened Histogram
  import opened Devices
  import opened Aggregator
  import opened EventLog
  import opened Report
  import opened RawEvents

  // ----- the losses -----

  function Clamp(n: nat): u64 {
    if n <= MAX_U64 then n else MAX_U64
  }

  /** The operations in values of cgroups that no VM owns. */
  function UnownedOperations(c: Config, ks: seq<KernelCgroupOperation>): nat {
    if ks == [] then 0 else
    var k := ks[|ks| - 1];
    UnownedOperations(c, ks[..|ks| - 1]) + (if k.cgroupId in c.index then 0 else k.latency.latency.count)
  }

  /** The losses of a report: what the events lost, modulo 2^64, and what the kernel
      counted, clamped; the requests still pending are counted on top. */
  ghost predicate LossesAddUp(
    lost: Unattributed, t: Tally, unowned: nat, waiting: nat, stats: KernelStats, kernelUnowned: nat) {
    var k := stats.counters;
    && lost.missingBio == Clamp(Wrap(t.bioMissing) as int + k.missingBio)
    && lost.missingBlkcg == Clamp(Wrap(t.blkcgMissing) as int + k.missingBlkcg)
    && lost.unmappedCgroup == Clamp(Wrap(unowned) as int + kernelUnowned)
    && lost.lookupMiss == Clamp(Wrap(t.missed) as int + k.lookupMiss)
    && lost.duplicateIssue == Clamp(Wrap(t.duplicates) as int + k.duplicateIssue)
    && lost.requeueOrReissue == Wrap(t.reissues)
    && lost.unsupportedRequest == Wrap(t.unsupported + t.backwards)
    && lost.stackedDeviceAmbiguous == Wrap(t.stacked)
    && lost.incompleteAtWindowEnd == Wrap(k.incompleteAtWindowEnd as int + waiting)
    && lost.droppedEvents == stats.droppedEvents && lost.ringBufferLost == stats.ringBufferLost
    && lost.mapFull == (if stats.mapFull > k.mapFull then stats.mapFull else k.mapFull)
    && lost.metadataUnavailable == k.metadataUnavailable && lost.deviceUnavailable == k.deviceUnavailable
    && lost.operationUnknown == k.operationUnknown
  }

  lemma {:induction false} OperationsLose(c: Config, s: State, ks: seq<KernelCgroupOperation>)
    ensures var after := AfterKernelOperations(c, s, ks);
            && after.issues == s.issues && after.host == s.host
            && after.lost == s.lost.(unmappedCgroup := Clamp(s.lost.unmappedCgroup + UnownedOperations(c, ks)))
  {
    if ks == [] {
    } else {
      OperationsLose(c, s, ks[..|ks| - 1]);
    }
  }

  /** The losses that finishing reports of a state. */
  ghost function FinalLosses(s: State): Unattributed {
    s.lost.(incompleteAtWindowEnd := Wrap(s.lost.incompleteAtWindowEnd + |Waiting(s.issues)|))
  }

  lemma StatsLose(c: Config, s: State, t: Tally, unowned: nat, stats: KernelStats)
    requires s.lost == LossOf(t, unowned)
    ensures LossesAddUp(
              FinalLosses(AfterKernelStats(c, s, stats)), t, unowned, |Waiting(s.issues)|, stats,
              UnownedOperations(c, stats.cgroupOperations))
  {
    OperationsLose(c, s.(host := Merged(s.host, stats.hostLatency.latency)), stats.cgroupOperations);
    SmallWrap(stats.droppedEvents);
    SmallWrap(stats.ringBufferLost);
  }

  /** The losses after some events and some kernel statistics. */
  ghost predicate LossesOf(c: Config, events: seq<Event>, stats: KernelStats, lost: Unattributed) {
    LossesAddUp(
      lost, Count(c, events), |Select(c, Completed(c, events), Unmapped)|, |Waiting(RunAll(c, events).issues)|, stats,
      UnownedOperations(c, stats.cgroupOperations))
  }

  lemma EventsLose(c: Config, events: seq<Event>, stats: KernelStats)
    ensures LossesOf(c, events, stats, FinalLosses(AfterKernelStats(c, RunAll(c, events), stats)))
  {
    CountersAreTallies(c, events);
    StatsLose(c, RunAll(c, events), Count(c, events), |Select(c, Completed(c, events), Unmapped)|, stats);
  }

  lemma ReportLoses(s: State, k: KernelPart, n: nat, available: bool, r: Aggregator.Report)
    requires IsReport(s, k, n, available, r)
    ensures r.lost == FinalLosses(s)
  {
  }

  /** After any events and any kernel statistics, the report's losses are these. */
  lemma LossesAreReported(
    c: Config, events: seq<Event>, stats: KernelStats, s: State, k: KernelPart, n: nat, available: bool, r: Aggregator.Report)
    requires s == AfterKernelStats(c, RunAll(c, events), stats) && IsReport(s, k, n, available, r)
    ensures LossesOf(c, events, stats, r.lost)
  {
    EventsLose(c, events, stats);
    ReportLoses(s, k, n, available, r);
  }

  // ----- the unattributed total -----

  /** Outside attribution mode the total is the sum of eight losses, modulo 2^64; in it, the
      host's requests that no VM has and two losses, clamped. */
  lemma TotalIsReported(s: State, k: KernelPart, n: nat, available: bool, r: Aggregator.Report)
    requires IsReport(s, k, n, available, r)
    ensures k.mode != VMAttributed ==>
              r.totalUnattributedOps
              == Wrap(r.lost.missingBio as int + r.lost.missingBlkcg + r.lost.unmappedCgroup + r.lost.lookupMiss
                      + r.lost.unsupportedRequest + r.lost.stackedDeviceAmbiguous + r.lost.incompleteAtWindowEnd + r.lost.mapFull)
    ensures k.mode == VMAttributed ==>
              r.totalUnattributedOps
              == Clamp(Max(r.hostTotalOps - r.summary.attributedOps, 0) + r.lost.lookupMiss + r.lost.incompleteAtWindowEnd)
  {
  }

  // ----- the values of each VM, by their texts -----

  /** The latencies behind the values that a test keeps. */
  function LogWhere(ks: seq<KernelCgroupOperation>, logs: seq<seq<u64>>, keep: KernelCgroupOperation -> bool): seq<u64>
    requires |ks| == |logs|
  {
    if ks == [] then [] else
    var n := |ks| - 1;
    var rest := LogWhere(ks[..n], logs[..n], keep);
    if keep(ks[n]) then rest + logs[n] else rest
  }

  lemma {:induction false} LogWhereAtMost(
    ks: seq<KernelCgroupOperation>, logs: seq<seq<u64>>, keep: KernelCgroupOperation -> bool)
    requires |ks| == |logs|
    ensures |LogWhere(ks, logs, keep)| <= |Flatten(logs)|
  {
    if ks == [] {
    } else {
      LogWhereAtMost(ks[..|ks| - 1], logs[..|ks| - 1], keep);
    }
  }

  /** The test keeps a VM's values whose text names an operation. */
  ghost predicate KeepsOperation(c: Config, vm: nat, op: Operation, keep: KernelCgroupOperation -> bool) {
    forall k :: keep(k) <==> Mapped(c, k, vm) && Spells(c.lower, k.operation, op)
  }

  lemma AddToField(o: Operations, own: Operation, count: u64, op: Operation)
    requires OperationField(o, op) + count <= MAX_U64
    ensures OperationField(AddToOperation(o, own, count), op) == OperationField(o, op) + (if own == op then count else 0)
  {
  }

  lemma {:induction false} MergedOperations(
    c: Config, ks: seq<KernelCgroupOperation>, logs: seq<seq<u64>>, vm: nat, op: Operation, keep: KernelCgroupOperation -> bool)
    requires AllDescribe(ks, logs) && |Flatten(logs)| < TWO_64 && KeepsOperation(c, vm, op, keep)
    ensures OperationField(MergeAll(c, ks, vm).operations, op) == |LogWhere(ks, logs, keep)|
  {
    if ks == [] {
    } else {
      var n := |ks| - 1;
      var k := ks[n];
      MergedOperations(c, ks[..n], logs[..n], vm, op, keep);
      LogWhereAtMost(ks[..n], logs[..n], keep);
      SpellsOne(c.lower, k.operation, op);
      AddToField(MergeAll(c, ks[..n], vm).operations, CgroupKey(c, k).operation, k.latency.latency.count, op);
    }
  }

  /** Each of a VM's operation counters counts the requests behind the values whose text
      names the operation. */
  lemma KernelOperationsAreLogs(
    c: Config, ks: seq<KernelCgroupOperation>, logs: seq<seq<u64>>, vm: nat, op: Operation, keep: KernelCgroupOperation -> bool)
    requires AllDescribe(ks, logs) && |Flatten(logs)| < TWO_64 && KeepsOperation(c, vm, op, keep)
    ensures OperationField(VMAccumulator(AfterKernelOperations(c, INITIAL, ks), vm).operations, op)
            == |LogWhere(ks, logs, keep)|
  {
    KernelIsMergeAll(c, ks, vm);
    MergedOperations(c, ks, logs, vm, op, keep);
  }

  /** The test keeps a VM's values of one device and operation. */
  ghost predicate KeepsDevice(c: Config, vm: nat, key: DeviceOperation, keep: KernelCgroupOperation -> bool) {
    forall k :: keep(k) <==>
      Mapped(c, k, vm) && DeviceNumber(k.major, k.minor) == key.device && Spells(c.lower, k.operation, key.operation)
  }

  lemma {:induction false} MergedDeviceLogs(
    c: Config, ks: seq<KernelCgroupOperation>, logs: seq<seq<u64>>, vm: nat, key: DeviceOperation, keep: KernelCgroupOperation -> bool)
    requires AllDescribe(ks, logs) && |Flatten(logs)| < TWO_64 && KeepsDevice(c, vm, key, keep)
    ensures var log := LogWhere(ks, logs, keep);
            Holds(MergeAll(c, ks, vm).deviceOperations, key, log != [], log)
  {
    if ks == [] {
      EmptyDescribes();
    } else {
      var n := |ks| - 1;
      var k, before := ks[n], LogWhere(ks[..n], logs[..n], keep);
      MergedDeviceLogs(c, ks[..n], logs[..n], vm, key, keep);
      LogWhereAtMost(ks[..n], logs[..n], keep);
      SpellsOne(c.lower, k.operation, key.operation);
      if k.latency.latency.count > 0 {
        MergeIntoHolds(
          MergeAll(c, ks[..n], vm).deviceOperations, CgroupKey(c, k), k.latency.latency, key, before != [], before, logs[n]);
      } else {
        assert before + logs[n] == before;
      }
    }
  }

  /** Each of a VM's device histograms is the aggregate of the logs behind its values. */
  lemma KernelDevicesAreLogs(
    c: Config, ks: seq<KernelCgroupOperation>, logs: seq<seq<u64>>, vm: nat, key: DeviceOperation, keep: KernelCgroupOperation -> bool)
    requires AllDescribe(ks, logs) && |Flatten(logs)| < TWO_64 && KeepsDevice(c, vm, key, keep)
    ensures var log := LogWhere(ks, logs, keep);
            Holds(VMAccumulator(AfterKernelOperations(c, INITIAL, ks), vm).deviceOperations, key, log != [], log)
  {
    KernelIsMergeAll(c, ks, vm);
    MergedDeviceLogs(c, ks, logs, vm, key, keep);
  }

  /** The test keeps a VM's values of one device. */
  ghost predicate KeepsName(c: Config, vm: nat, device: string, keep: KernelCgroupOperation -> bool) {
    forall k :: keep(k) <==> Mapped(c, k, vm) && DeviceNumber(k.major, k.minor) == device
  }

  lemma {:induction false} MergedNames(
    c: Config, ks: seq<KernelCgroupOperation>, logs: seq<seq<u64>>, vm: nat, device: string, keep: KernelCgroupOperation -> bool)
    requires AllDescribe(ks, logs) && KeepsName(c, vm, device, keep)
    ensures device in MergeAll(c, ks, vm).devices <==> LogWhere(ks, logs, keep) != []
  {
    if ks == [] {
    } else {
      MergedNames(c, ks[..|ks| - 1], logs[..|ks| - 1], vm, device, keep);
    }
  }

  /** A VM's devices are those of its values. */
  lemma KernelNamesAreListed(
    c: Config, ks: seq<KernelCgroupOperation>, logs: seq<seq<u64>>, vm: nat, device: string, keep: KernelCgroupOperation -> bool)
    requires AllDescribe(ks, logs) && KeepsName(c, vm, device, keep)
    ensures device in VMAccumulator(AfterKernelOperations(c, INITIAL, ks), vm).devices <==> LogWhere(ks, logs, keep) != []
  {
    KernelIsMergeAll(c, ks, vm);
    MergedNames(c, ks, logs, vm, device, keep);
  }

  // ----- the host and the labels -----

  /** The host's latencies are those of the events and of the kernel's value. */
  lemma HostIsBoth(c: Config, events: seq<Event>, stats: KernelStats, ys: seq<u64>)
    requires Describes(stats.hostLatency.latency, ys) && |events| + |ys| < TWO_64
    ensures var xs := Select(c, Completed(c, events), Everything);
            Describes(AfterKernelStats(c, RunAll(c, events), stats).host, xs + ys)
  {
    var xs := Select(c, Completed(c, events), Everything);
    AttributionIsLog(c, events);
    CompletedCount(c, events);
    SelectEverything(c, Completed(c, events));
    FromLogDescribes(xs);
    MergedDescribes(RunAll(c, events).host, stats.hostLatency.latency, xs, ys);
    OperationsLose(
      c, RunAll(c, events).(host := Merged(RunAll(c, events).host, stats.hostLatency.latency)), stats.cgroupOperations);
  }

  /** The mode, the method, the counters and the host's operations of a report are those of
      the kernel's statistics, where they give any. */
  lemma KernelPartIsReported(
    c: Config, s: State, stats: KernelStats, n: nat, available: bool, r: Aggregator.Report, k: KernelPart)
    requires k == KernelAfterStats(c.lower, NO_KERNEL, stats) && IsReport(s, k, n, available, r)
    ensures stats.mode != None ==> stats.mode == Some(k.mode)
    ensures stats.mode == None ==> k.mode == HostOnly
    ensures stats.attribution != None ==> stats.attribution == Some(k.attribution)
    ensures stats.attribution == None ==> k.attribution == HostCorrelation
    ensures k.counters == stats.counters
    ensures 0 < SumOf(stats.hostLatency.operations) < TWO_64 ==> r.hostOperations == stats.hostLatency.operations
  {
    if SumOf(stats.hostLatency.operations) < TWO_64 { SmallWrap(SumOf(stats.hostLatency.operations)); }
  }

  // ----- the rows' labels -----

  /** Every VM with an accumulator has a request in it. */
  ghost predicate Busy(s: State) {
    forall vm :: vm in s.byVM ==> s.byVM[vm].latency.count > 0
  }

  ghost predicate BusyUpTo(s: State, n: nat) {
    forall vm :: vm in s.byVM ==> 0 < s.byVM[vm].latency.count <= n
  }

  lemma EventIsBusy(c: Config, s: State, e: Event, n: nat)
    requires BusyUpTo(s, n) && n + 1 < TWO_64
    ensures BusyUpTo(After(c, s, e), n + 1)
  {
    if e.kind == Complete && e.requestPointer in s.issues && e.timestampNs >= s.issues[e.requestPointer].timestampNs {
      var issue := s.issues[e.requestPointer];
      LatencyIsBusy(c, s.(issues := s.issues - {e.requestPointer}), issue, e.timestampNs - issue.timestampNs, n);
    }
  }

  lemma LatencyIsBusy(c: Config, s: State, issue: Pending, latencyNs: u64, n: nat)
    requires BusyUpTo(s, n) && n + 1 < TWO_64
    ensures BusyUpTo(AfterLatency(c, s, issue, latencyNs), n + 1)
  {
  }

  lemma {:induction false} EventsAreBusy(c: Config, events: seq<Event>)
    requires |events| < TWO_64
    ensures BusyUpTo(RunAll(c, events), |events|)
  {
    if events == [] {
    } else {
      EventsAreBusy(c, events[..|events| - 1]);
      EventIsBusy(c, RunAll(c, events[..|events| - 1]), events[|events| - 1], |events| - 1);
    }
  }

  lemma {:induction false} OperationsAreBusy(c: Config, s: State, ks: seq<KernelCgroupOperation>)
    requires Busy(s)
    ensures Busy(AfterKernelOperations(c, s, ks))
  {
    if ks == [] {
    } else {
      OperationsAreBusy(c, s, ks[..|ks| - 1]);
    }
  }

  /** A VM with requests is labelled unavailable, and as a partial collection when the
      collection failed; one without is labelled so exactly when the collection succeeded. */
  lemma RowLabels(
    c: Config, events: seq<Event>, stats: KernelStats, k: KernelPart, n: nat, available: bool, r: Aggregator.Report, vm: nat)
    requires |events| < TWO_64 && vm < n && IsReport(AfterKernelStats(c, RunAll(c, events), stats), k, n, available, r)
    ensures r.rows[vm].quality == PartialCollection <==> r.rows[vm].totalOps > 0 && !available
    ensures r.rows[vm].quality == NoAttributedEvents <==> r.rows[vm].totalOps == 0 && available
    ensures r.rows[vm].quality in {PartialCollection, NoAttributedEvents, Unavailable}
  {
    var s := RunAll(c, events);
    var merged := s.(host := Merged(s.host, stats.hostLatency.latency));
    EventsAreBusy(c, events);
    OperationsAreBusy(c, merged, stats.cgroupOperations);
    assert Busy(AfterKernelStats(c, s, stats));
    assert IsRow(AfterKernelStats(c, s, stats), vm, available, r.rows[vm]);
  }
}
