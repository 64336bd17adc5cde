/** What a finished report guarantees: the counts are conserved, the percentages are
    complete, and the quality label agrees with them. */
module Report {
  import opened Words
  import opened Histogram
  import opened Devices
  import opened CgroupIndex
  import opened Aggregator
  import opened EventLog
  import opened Attribution

  // ----- the event path -----

  /** Kernel statistics without any aggregate or count. */
  ghost predicate Silent(stats: KernelStats) {
    && stats.counters == NO_COUNTERS && stats.droppedEvents == stats.ringBufferLost == stats.mapFull == 0
    && stats.hostLatency.latency.count == 0 && stats.hostLatency.operations == NO_OPERATIONS
    && stats.hostDeviceOperations == [] && stats.cgroupOperations == []
  }

  lemma SilentLosesNothing(lost: Unattributed, stats: KernelStats)
    requires Silent(stats)
    ensures AddKernelLoss(lost, stats) == lost
  {
    SmallWrap(lost.droppedEvents);
    SmallWrap(lost.ringBufferLost);
  }

  lemma SilentKeepsState(c: Config, s: State, stats: KernelStats)
    requires Silent(stats)
    ensures AfterKernelStats(c, s, stats) == s
  {
    SilentLosesNothing(s.lost, stats);
  }

  lemma SilentHasNoOperations(lower: string -> string, stats: KernelStats)
    requires Silent(stats)
    ensures var k := KernelAfterStats(lower, NO_KERNEL, stats);
            k.hostOperations == NO_OPERATIONS && Wrap(SumOf(k.hostOperations)) == 0
  {
    SmallWrap(0);
  }

  /** Silent statistics leave the aggregated state alone. */
  lemma SilentChangesNothing(c: Config, s: State, stats: KernelStats)
    requires Silent(stats)
    ensures AfterKernelStats(c, s, stats) == s
    ensures var k := KernelAfterStats(c.lower, NO_KERNEL, stats);
            k.hostOperations == NO_OPERATIONS && Wrap(SumOf(k.hostOperations)) == 0
  {
    SilentKeepsState(c, s, stats);
    SilentHasNoOperations(c.lower, stats);
  }

  /** The aggregator after a run of events, followed by kernel statistics. */
  ghost predicate IsFinal(c: Config, events: seq<Event>, stats: KernelStats, s: State, k: KernelPart) {
    s == AfterKernelStats(c, RunAll(c, events), stats) && k == KernelAfterStats(c.lower, NO_KERNEL, stats)
  }

  /** The report of a run of events, followed by silent statistics. */
  ghost predicate IsEventReport(c: Config, events: seq<Event>, stats: KernelStats, n: nat, available: bool, r: Report) {
    Silent(stats)
    && forall s, k {:trigger IsReport(s, k, n, available, r)} ::
         IsFinal(c, events, stats, s, k) ==> IsReport(s, k, n, available, r)
  }

  /** What the report of a run of events is made of. */
  ghost predicate IsPlainReport(s: State, mode: CollectionMode, n: nat, available: bool, r: Report) {
    && |r.rows| == n && AreRows(s, available, r.rows)
    && r.lost == s.lost.(incompleteAtWindowEnd := Wrap(s.lost.incompleteAtWindowEnd + |Waiting(s.issues)|))
    && r.summary.attributedOps == Min(TotalSum(r.rows), MAX_U64) && r.hostTotalOps == s.host.count
    && (exists sums :: AreSums(sums, r.rows) && r.hostOperations == WithRest(sums, s.host.count, r.summary.attributedOps))
    && r.totalUnattributedOps == UnattributedTotal(mode, r.lost, s.host.count, r.summary.attributedOps)
  }

  lemma EventReportIsPlain(c: Config, events: seq<Event>, stats: KernelStats, n: nat, available: bool, r: Report)
    requires IsEventReport(c, events, stats, n, available, r)
    ensures IsPlainReport(RunAll(c, events), OrElse(stats.mode, HostOnly), n, available, r)
  {
    var s, k := RunAll(c, events), KernelAfterStats(c.lower, NO_KERNEL, stats);
    SilentChangesNothing(c, s, stats);
    assert IsFinal(c, events, stats, s, k);
    assert IsReport(s, k, n, available, r);
    PlainReport(s, k, n, available, r);
  }

  lemma PlainReport(s: State, k: KernelPart, n: nat, available: bool, r: Report)
    requires IsReport(s, k, n, available, r) && k.hostOperations == NO_OPERATIONS
    ensures IsPlainReport(s, k.mode, n, available, r)
  {
    SmallWrap(SumOf(NO_OPERATIONS));
  }

  /** An index made from mappings attributes a request to the last mapping that owns its
      cgroup, and to no other. */
  lemma AttributedToOwner(c: Config, mappings: seq<Mapping>, m: Measurement, vm: nat)
    requires IsIndex(mappings, c.index)
    ensures IndexBelow(c, |mappings|)
    ensures m.issue.cgroupId != 0 ==>
              (Matches(c, m, OfVM(vm)) <==>
               Owns(mappings, vm, m.issue.cgroupId)
               && forall i: nat :: Owns(mappings, i, m.issue.cgroupId) ==> i <= vm)
  {
    forall id | id in c.index
      ensures c.index[id] < |mappings|
    {
      assert Owns(mappings, c.index[id], id);
    }
    var id := m.issue.cgroupId;
    if id in c.index { assert Owns(mappings, c.index[id], id); }
  }

  lemma {:induction false} RowsAddUp(rows: seq<VMRow>)
    requires forall i :: 0 <= i < |rows| ==> rows[i].totalOps == SumOf(rows[i].operations)
    ensures TotalSum(rows) == OperationSum(rows, Read) + OperationSum(rows, Write) + OperationSum(rows, Flush)
                              + OperationSum(rows, Discard) + OperationSum(rows, Unknown)
  {
    if rows == [] {
    } else {
      RowsAddUp(rows[..|rows| - 1]);
    }
  }

  lemma {:induction false} RowsAreCounts(s: State, n: nat, available: bool, rows: seq<VMRow>)
    requires n <= |rows| && AreRows(s, available, rows)
    ensures TotalSum(rows[..n]) == SumCounts(s, n)
  {
    if n == 0 {
    } else {
      RowsAreCounts(s, n - 1, available, rows);
      assert rows[..n][..n - 1] == rows[..n - 1];
      assert IsRow(s, n - 1, available, rows[n - 1]);
      assert rows[n - 1].totalOps == VMTotals(s, n - 1).count;
    }
  }

  /** Sums that fit, and the rest as unknown, make up the host count. */
  lemma RestIsUnknown(rows: seq<VMRow>, sums: Operations, hostCount: u64)
    requires AreSums(sums, rows) && TotalSum(rows) <= hostCount
    requires TotalSum(rows) == OperationSum(rows, Read) + OperationSum(rows, Write) + OperationSum(rows, Flush)
                               + OperationSum(rows, Discard) + OperationSum(rows, Unknown)
    ensures SumOf(WithRest(sums, hostCount, TotalSum(rows))) == hostCount
  {
    SmallWrap(OperationSum(rows, Read));
    SmallWrap(OperationSum(rows, Write));
    SmallWrap(OperationSum(rows, Flush));
    SmallWrap(OperationSum(rows, Discard));
    SmallWrap(OperationSum(rows, Unknown));
  }

  /** After consuming events only, the attributed operations are those of the VMs, at
      most the host's, and the host's five operation counts sum to its total. */
  lemma EventPathOperations(c: Config, events: seq<Event>, stats: KernelStats, n: nat, available: bool, r: Report)
    requires |events| < TWO_64 && IndexBelow(c, n)
    requires IsEventReport(c, events, stats, n, available, r)
    ensures r.summary.attributedOps == SumCounts(RunAll(c, events), n) <= r.hostTotalOps
    ensures SumOf(r.hostOperations) == r.hostTotalOps
  {
    EventReportIsPlain(c, events, stats, n, available, r);
    PlainOperations(c, events, OrElse(stats.mode, HostOnly), n, available, r);
  }

  lemma PlainOperations(c: Config, events: seq<Event>, mode: CollectionMode, n: nat, available: bool, r: Report)
    requires |events| < TWO_64 && IndexBelow(c, n)
    requires IsPlainReport(RunAll(c, events), mode, n, available, r)
    ensures r.summary.attributedOps == SumCounts(RunAll(c, events), n) <= r.hostTotalOps
    ensures SumOf(r.hostOperations) == r.hostTotalOps
  {
    RowCounts(c, events, available, r.rows);
    HostIsSumOfVMs(c, events, n, 0);
    HostRest(RunAll(c, events), mode, n, available, r);
  }

  lemma RowCount(c: Config, events: seq<Event>, vm: nat, available: bool, row: VMRow)
    requires |events| < TWO_64 && IsRow(RunAll(c, events), vm, available, row)
    ensures row.totalOps == SumOf(row.operations)
  {
    if vm in RunAll(c, events).byVM { OperationsAddUp(c, events, vm); }
  }

  lemma RowCounts(c: Config, events: seq<Event>, available: bool, rows: seq<VMRow>)
    requires |events| < TWO_64 && AreRows(RunAll(c, events), available, rows)
    ensures TotalSum(rows) == SumCounts(RunAll(c, events), |rows|)
    ensures TotalSum(rows) == OperationSum(rows, Read) + OperationSum(rows, Write) + OperationSum(rows, Flush)
                              + OperationSum(rows, Discard) + OperationSum(rows, Unknown)
  {
    forall vm: nat | vm < |rows|
      ensures rows[vm].totalOps == SumOf(rows[vm].operations)
    {
      RowCount(c, events, vm, available, rows[vm]);
    }
    RowsAddUp(rows);
    RowsAreCounts(RunAll(c, events), |rows|, available, rows);
    assert rows[..|rows|] == rows;
  }

  lemma HostRest(s: State, mode: CollectionMode, n: nat, available: bool, r: Report)
    requires IsPlainReport(s, mode, n, available, r) && TotalSum(r.rows) <= s.host.count
    requires TotalSum(r.rows) == OperationSum(r.rows, Read) + OperationSum(r.rows, Write) + OperationSum(r.rows, Flush)
                                 + OperationSum(r.rows, Discard) + OperationSum(r.rows, Unknown)
    ensures r.summary.attributedOps == TotalSum(r.rows) && SumOf(r.hostOperations) == r.hostTotalOps == s.host.count
  {
    var sums :| AreSums(sums, r.rows) && r.hostOperations == WithRest(sums, s.host.count, r.summary.attributedOps);
    RestIsUnknown(r.rows, sums, s.host.count);
  }

  /** Without a filter, and outside attribution mode, every event is an attributed or an
      unattributed operation of the report, or the second event of a request: its
      completion or its replacement. */
  lemma EventPathCoverage(c: Config, events: seq<Event>, stats: KernelStats, n: nat, available: bool, r: Report)
    requires c.filter == "" && |events| < TWO_64 && IndexBelow(c, n)
    requires IsEventReport(c, events, stats, n, available, r) && stats.mode != Some(VMAttributed)
    ensures var t := Count(c, events);
            |events| == r.summary.attributedOps + r.totalUnattributedOps
                        + t.backwards + t.measured + r.lost.duplicateIssue + r.lost.requeueOrReissue
  {
    EventReportIsPlain(c, events, stats, n, available, r);
    PlainCoverage(c, events, OrElse(stats.mode, HostOnly), n, available, r);
  }

  lemma PlainCoverage(c: Config, events: seq<Event>, mode: CollectionMode, n: nat, available: bool, r: Report)
    requires c.filter == "" && |events| < TWO_64 && IndexBelow(c, n) && mode != VMAttributed
    requires IsPlainReport(RunAll(c, events), mode, n, available, r)
    ensures var t := Count(c, events);
            |events| == r.summary.attributedOps + r.totalUnattributedOps
                        + t.backwards + t.measured + r.lost.duplicateIssue + r.lost.requeueOrReissue
  {
    PlainOperations(c, events, mode, n, available, r);
    HostIsSumOfVMs(c, events, n, 0);
    Ledger(c, events);
    CountersAreTallies(c, events);
    Coverage(RunAll(c, events), Count(c, events), |events|, mode, n, available, r);
  }

  lemma Coverage(s: State, t: Tally, count: nat, mode: CollectionMode, n: nat, available: bool, r: Report)
    requires EventsBalance(s, t.stored, count) && StoredBalance(s, t) && count < TWO_64
    requires IsPlainReport(s, mode, n, available, r) && mode != VMAttributed
    requires s.lost.incompleteAtWindowEnd == s.lost.mapFull == 0
    requires s.host.count == r.summary.attributedOps + s.lost.unmappedCgroup
    ensures count == r.summary.attributedOps + r.totalUnattributedOps
                     + t.backwards + t.measured + r.lost.duplicateIssue + r.lost.requeueOrReissue
  {
    SmallWrap(|Waiting(s.issues)|);
    SmallWrap(s.lost.missingBio + s.lost.missingBlkcg + s.lost.unmappedCgroup + s.lost.lookupMiss
              + s.lost.unsupportedRequest + s.lost.stackedDeviceAmbiguous + |Waiting(s.issues)|);
  }

  /** All requests still pending are reported, on the event path exactly. */
  lemma PendingReported(c: Config, events: seq<Event>, stats: KernelStats, n: nat, available: bool, r: Report)
    requires |events| < TWO_64 && IsEventReport(c, events, stats, n, available, r)
    ensures r.lost.incompleteAtWindowEnd == |Waiting(RunAll(c, events).issues)|
  {
    EventReportIsPlain(c, events, stats, n, available, r);
    PlainPending(c, events, OrElse(stats.mode, HostOnly), n, available, r);
  }

  lemma PlainPending(c: Config, events: seq<Event>, mode: CollectionMode, n: nat, available: bool, r: Report)
    requires |events| < TWO_64 && IsPlainReport(RunAll(c, events), mode, n, available, r)
    ensures r.lost.incompleteAtWindowEnd == |Waiting(RunAll(c, events).issues)|
  {
    WaitingFits(c, events);
  }

  lemma WaitingFits(c: Config, events: seq<Event>)
    requires |events| < TWO_64
    ensures var s := RunAll(c, events);
            Wrap(s.lost.incompleteAtWindowEnd + |Waiting(s.issues)|) == |Waiting(s.issues)|
  {
    CountersAreTallies(c, events);
    EveryEventCounted(c, events);
    PendingBalance(c, events);
    StoredIsPending(RunAll(c, events), Count(c, events), |events|);
  }

  lemma StoredIsPending(s: State, t: Tally, n: nat)
    requires AddsUp(t, n) && Balanced(t, s.issues) && n < TWO_64
    ensures |Waiting(s.issues)| < TWO_64
    ensures Wrap(|Waiting(s.issues)|) == |Waiting(s.issues)|
  {
    assert Waiting(s.issues) <= s.issues.Keys;
    Subset(Waiting(s.issues), s.issues.Keys);
  }

  lemma {:induction false} Subset(a: set<u64>, b: set<u64>)
    requires a <= b
    ensures |a| <= |b|
  {
    assert b == a + (b - a);
  }

  // ----- the device listing of a row -----

  function SumLines(lines: seq<DeviceSummary>, b: nat): nat
    requires b < BUCKETS
  {
    if lines == [] then 0 else SumLines(lines[..|lines| - 1], b) + lines[|lines| - 1].totals.buckets[b]
  }

  function KeysOf(lines: seq<DeviceSummary>): (keys: seq<DeviceOperation>)
    ensures |keys| == |lines| && forall i: nat :: i < |lines| ==> keys[i] == lines[i].key
  {
    seq(|lines|, i requires 0 <= i < |lines| => lines[i].key)
  }

  lemma {:induction false} LinesAreKeys(lines: seq<DeviceSummary>, m: map<DeviceOperation, Totals>, b: nat)
    requires b < BUCKETS && forall i: nat :: i < |lines| ==> lines[i].key in m && lines[i].totals == m[lines[i].key]
    ensures SumLines(lines, b) == SumKeys(m, KeysOf(lines), b)
  {
    if lines == [] {
    } else {
      var n := |lines| - 1;
      LinesAreKeys(lines[..n], m, b);
      assert KeysOf(lines)[..n] == KeysOf(lines[..n]);
    }
  }

  lemma ListedKeys(lines: seq<DeviceSummary>, m: map<DeviceOperation, Totals>)
    requires Lists(lines, m)
    ensures Attribution.Distinct(KeysOf(lines)) && forall key :: key in KeysOf(lines) <==> key in m
  {
    forall i: nat, j: nat | i < j < |lines|
      ensures KeysOf(lines)[i] != KeysOf(lines)[j]
    {
      KeysOrdered(lines[i].key, lines[j].key);
    }
    forall key | key in m
      ensures key in KeysOf(lines)
    {
      assert key in KeySet(lines);
      var line :| line in lines && line.key == key;
      var i: nat :| i < |lines| && lines[i] == line;
      assert KeysOf(lines)[i] == key;
    }
  }

  /** The listed device histograms of a row add up to the row's, in every bucket. */
  lemma ListingAddsUp(c: Config, events: seq<Event>, vm: nat, available: bool, row: VMRow, b: nat)
    requires |events| < TWO_64 && b < BUCKETS && IsRow(RunAll(c, events), vm, available, row)
    ensures row.latency.buckets[b] == SumLines(row.deviceOperations, b)
  {
    var s := RunAll(c, events);
    var m := Lookup(s.byVM, vm, NEW_ACCUMULATOR).deviceOperations;
    ListedKeys(row.deviceOperations, m);
    LinesAreKeys(row.deviceOperations, m, b);
    if vm in s.byVM {
      DevicesAddUp(c, events, vm, KeysOf(row.deviceOperations), b);
    } else {
      EmptyListing(row.deviceOperations, m);
    }
  }

  // ----- attribution mode -----

  /** In attribution mode the attributed and unattributed operations make up the larger of
      the host and the attributed count, the lookup misses and the incomplete requests,
      exactly when the unattributed sum does not saturate. */
  lemma AttributionModeConserves(s: State, k: KernelPart, n: nat, available: bool, r: Report)
    requires IsReport(s, k, n, available, r) && k.mode == VMAttributed
    ensures var attributed, host := r.summary.attributedOps, r.hostTotalOps;
            (attributed + r.totalUnattributedOps
             == Max(host, attributed) + r.lost.lookupMiss + r.lost.incompleteAtWindowEnd)
            <==> Max(host, attributed) - attributed + r.lost.lookupMiss + r.lost.incompleteAtWindowEnd <= MAX_U64
  {
  }

  /** Statistics of a window whose counters are nearly full. */
  function FullStats(misses: u64, operations: seq<KernelCgroupOperation>): KernelStats {
    var v := KernelLatency(Totals(MAX_U64, 0, 0, 0, Empty().buckets), NO_OPERATIONS);
    KernelStats(Some(VMAttributed), None, NO_COUNTERS.(lookupMiss := misses), v, [], operations, 0, 0, 0)
  }

  /** A VM's value that has as many requests as the host. */
  function FullOperation(id: u64): KernelCgroupOperation {
    KernelCgroupOperation(id, 8, 0, "r", KernelLatency(Totals(MAX_U64, 0, 0, 0, Empty().buckets), NO_OPERATIONS))
  }

  /** The report after such statistics alone. */
  ghost predicate IsFullReport(
    c: Config, misses: u64, operations: seq<KernelCgroupOperation>, n: nat, available: bool, r: Report)
  {
    var stats := FullStats(misses, operations);
    IsReport(AfterKernelStats(c, INITIAL, stats), KernelAfterStats(c.lower, NO_KERNEL, stats), n, available, r)
  }

  lemma FullTotals(c: Config, misses: u64, operations: seq<KernelCgroupOperation>)
    ensures var stats := FullStats(misses, operations);
            var s, k := AfterKernelStats(c, INITIAL, stats), KernelAfterStats(c.lower, NO_KERNEL, stats);
            && s.host.count == MAX_U64 && s.lost.lookupMiss == misses && s.lost.incompleteAtWindowEnd == 0
            && Waiting(s.issues) == {} && k.mode == VMAttributed
  {
    OperationsKeep(c, INITIAL.(host := Merged(Empty(), FullStats(misses, operations).hostLatency.latency)), operations);
  }

  lemma {:induction false} OperationsKeep(c: Config, s: State, ks: seq<KernelCgroupOperation>)
    ensures var after := AfterKernelOperations(c, s, ks);
            && after.issues == s.issues && after.host == s.host && after.lost.lookupMiss == s.lost.lookupMiss
            && after.lost.incompleteAtWindowEnd == s.lost.incompleteAtWindowEnd
  {
    if ks == [] {
    } else {
      OperationsKeep(c, s, ks[..|ks| - 1]);
    }
  }

  /** A saturated sum does occur: a full host count without a VM, and one lookup miss. */
  lemma SumCanSaturate(c: Config, available: bool, r: Report)
    requires IsFullReport(c, 1, [], 0, available, r)
    ensures r.summary.attributedOps + r.totalUnattributedOps
            < Max(r.hostTotalOps, r.summary.attributedOps) + r.lost.lookupMiss + r.lost.incompleteAtWindowEnd
  {
    FullTotals(c, 1, []);
  }

  /** The two percentages sum to 100 exactly when the denominator did not wrap. */
  lemma PercentagesComplete(s: State, k: KernelPart, n: nat, available: bool, r: Report)
    requires IsReport(s, k, n, available, r)
    requires Wrap(r.summary.attributedOps as int + r.totalUnattributedOps) > 0
    ensures r.summary.attributedPercent + r.unattributedPercent == 100.0
            <==> r.summary.attributedOps + r.totalUnattributedOps < TWO_64
  {
    var a, u := r.summary.attributedOps, r.totalUnattributedOps;
    var d := Wrap(a as int + u);
    PercentSum(a, u, d);
    if a + u < TWO_64 {
      SmallWrap(a + u);
    } else {
      assert d < a + u;
    }
  }

  /** A full VM attributes all that the host can count. */
  lemma FullVM(c: Config, id: u64, misses: u64, available: bool, r: Report)
    requires id in c.index && c.index[id] == 0
    requires IsFullReport(c, misses, [FullOperation(id)], 1, available, r)
    ensures r.summary.attributedOps == MAX_U64 && r.totalUnattributedOps == misses
  {
    var ks := [FullOperation(id)];
    var stats := FullStats(misses, ks);
    FullTotals(c, misses, ks);
    OneOperation(c, INITIAL.(host := Merged(Empty(), stats.hostLatency.latency)), id);
    FullRow(AfterKernelStats(c, INITIAL, stats), KernelAfterStats(c.lower, NO_KERNEL, stats), available, r);
  }

  lemma FullRow(s: State, k: KernelPart, available: bool, r: Report)
    requires IsReport(s, k, 1, available, r) && k.mode == VMAttributed
    requires s.host.count == MAX_U64 && VMTotals(s, 0).count == MAX_U64
    requires s.lost.incompleteAtWindowEnd == 0 && Waiting(s.issues) == {}
    ensures r.summary.attributedOps == MAX_U64 && r.totalUnattributedOps == s.lost.lookupMiss
  {
    assert IsRow(s, 0, available, r.rows[0]);
    assert r.rows[..0] == [];
    assert TotalSum(r.rows) == r.rows[0].totalOps;
    SmallWrap(0);
  }

  lemma OneOperation(c: Config, s: State, id: u64)
    requires id in c.index && c.index[id] == 0 && s.byVM == map[]
    ensures VMTotals(AfterKernelOperations(c, s, [FullOperation(id)]), 0).count == MAX_U64
  {
    assert [FullOperation(id)][..0] == [];
  }

  /** A wrapped denominator does occur: a full VM and two lookup misses. */
  lemma DenominatorCanWrap(c: Config, id: u64, available: bool, r: Report)
    requires id in c.index && c.index[id] == 0
    requires IsFullReport(c, 2, [FullOperation(id)], 1, available, r)
    ensures Wrap(r.summary.attributedOps as int + r.totalUnattributedOps) == 1
    ensures r.summary.attributedPercent + r.unattributedPercent > 100.0
  {
    FullVM(c, id, 2, available, r);
    WrapShift(1, 1);
    PercentOfOne(2);
    PercentOfOne(MAX_U64);
  }

  lemma PercentOfOne(x: u64)
    ensures Percent(x, 1) == x as real * 100.0
  {
  }

  lemma PercentSum(a: u64, u: u64, d: u64)
    requires d > 0
    ensures Percent(a, d) + Percent(u, d) == 100.0 <==> a + u == d
  {
    var x, y, z := a as real, u as real, d as real;
    Quotients(x, y, z);
    if x / z + y / z == 1.0 { assert x + y == z; }
  }

  lemma Quotients(x: real, y: real, z: real)
    requires z > 0.0
    ensures x / z + y / z == (x + y) / z
    ensures (x + y) / z == 1.0 <==> x + y == z
  {
    if (x + y) / z == 1.0 { assert x + y == 1.0 * z; }
  }

  // ----- the quality label -----

  /** The label of a summary. */
  function RuntimeQuality(s: Summary): Quality {
    if s.attributedOps == 0 || s.matchedVMCount == 0 then Unavailable
    else
      var denominator := Wrap(s.attributedOps as int + s.unattributedOps);
      if denominator == 0 then Unavailable
      else
        var percent := Percent(s.unattributedOps, denominator);
        if percent <= 5.0 then Available else if percent <= 25.0 then Degraded else Unavailable
  }

  lemma {:induction false} MatchedWhen(rows: seq<VMRow>)
    ensures Matched(rows) > 0 <==> exists i :: 0 <= i < |rows| && rows[i].totalOps > 0
    ensures Matched(rows) > 0 <==> TotalSum(rows) > 0
  {
    if rows == [] {
    } else {
      MatchedWhen(rows[..|rows| - 1]);
      if rows[|rows| - 1].totalOps == 0 && exists i :: 0 <= i < |rows| && rows[i].totalOps > 0 {
        var i :| 0 <= i < |rows| && rows[i].totalOps > 0;
        assert rows[..|rows| - 1][i].totalOps > 0;
      }
    }
  }

  /** The label as the percentage in the same report gives it. */
  ghost function LabelOf(r: Report): Quality {
    if forall vm: nat :: vm < |r.rows| ==> r.rows[vm].totalOps == 0 then Unavailable
    else if r.unattributedPercent <= 5.0 then Available
    else if r.unattributedPercent <= 25.0 then Degraded else Unavailable
  }

  /** The label agrees with the percentage exactly when the sum of the operations is not
      2^64, whose wrapped form is zero. */
  lemma QualityAgrees(s: State, k: KernelPart, n: nat, available: bool, r: Report)
    requires IsReport(s, k, n, available, r)
    ensures RuntimeQuality(r.summary) == LabelOf(r) <==> r.summary.attributedOps + r.totalUnattributedOps != TWO_64
  {
    MatchedWhen(r.rows);
    assert Matched(r.rows) == 0 <==> forall vm: nat :: vm < |r.rows| ==> r.rows[vm].totalOps == 0;
    LabelAgrees(r.summary, r.unattributedPercent, Matched(r.rows) == 0);
  }

  lemma LabelAgrees(s: Summary, percent: real, none: bool)
    requires none <==> s.matchedVMCount == 0
    requires none <==> s.attributedOps == 0
    requires var denominator := Wrap(s.attributedOps as int + s.unattributedOps);
             percent == if denominator > 0 then Percent(s.unattributedOps, denominator) else 0.0
    ensures RuntimeQuality(s) == (if none then Unavailable else if percent <= 5.0 then Available
                                  else if percent <= 25.0 then Degraded else Unavailable)
            <==> s.attributedOps + s.unattributedOps != TWO_64
  {
    if !none { WrapZero(s.attributedOps + s.unattributedOps); }
  }

  lemma WrapZero(x: int)
    requires 0 < x < 2 * TWO_64
    ensures Wrap(x) == 0 <==> x == TWO_64
  {
  }

  /** At that sum both percentages are zero, some VM is attributed, and the label is
      unavailable. */
  lemma LabelAtLimit(s: State, k: KernelPart, n: nat, available: bool, r: Report)
    requires IsReport(s, k, n, available, r) && r.summary.attributedOps + r.totalUnattributedOps == TWO_64
    ensures r.unattributedPercent == r.summary.attributedPercent == 0.0
    ensures RuntimeQuality(r.summary) == Unavailable && LabelOf(r) == Available
  {
    WrapZero(r.summary.attributedOps + r.totalUnattributedOps);
    MatchedWhen(r.rows);
  }

  /** That sum does occur: a full VM and one lookup miss. */
  lemma LabelCanDisagree(c: Config, id: u64, available: bool, r: Report)
    requires id in c.index && c.index[id] == 0 && IsFullReport(c, 1, [FullOperation(id)], 1, available, r)
    ensures RuntimeQuality(r.summary) == Unavailable && LabelOf(r) == Available && r.unattributedPercent == 0.0
  {
    var stats := FullStats(1, [FullOperation(id)]);
    FullVM(c, id, 1, available, r);
    LabelAtLimit(AfterKernelStats(c, INITIAL, stats), KernelAfterStats(c.lower, NO_KERNEL, stats), 1, available, r);
  }

  // ----- kernel aggregates -----

  /** The latencies behind the kernel values of one VM. */
  function LogOf(c: Config, ks: seq<KernelCgroupOperation>, logs: seq<seq<u64>>, vm: nat): seq<u64>
    requires |ks| == |logs|
  {
    if ks == [] then [] else
    var n := |ks| - 1;
    var rest := LogOf(c, ks[..n], logs[..n], vm);
    if ks[n].cgroupId in c.index && c.index[ks[n].cgroupId] == vm then rest + logs[n] else rest
  }

  lemma {:induction false} LogOfAtMost(c: Config, ks: seq<KernelCgroupOperation>, logs: seq<seq<u64>>, vm: nat)
    requires |ks| == |logs|
    ensures |LogOf(c, ks, logs, vm)| <= |Flatten(logs)|
  {
    if ks == [] {
    } else {
      LogOfAtMost(c, ks[..|ks| - 1], logs[..|ks| - 1], vm);
    }
  }

  /** A VM's accumulator aggregates a log, and its operation counters add up. */
  ghost predicate Aggregates(a: Accumulator, xs: seq<u64>) {
    Describes(a.latency, xs) && SumOf(a.operations) == a.latency.count
  }

  function VMAccumulator(s: State, vm: nat): Accumulator {
    Lookup(s.byVM, vm, NEW_ACCUMULATOR)
  }

  predicate Mapped(c: Config, k: KernelCgroupOperation, vm: nat) {
    k.cgroupId in c.index && c.index[k.cgroupId] == vm
  }

  function MergeIf(mapped: bool, a: Accumulator, key: DeviceOperation, v: Totals): Accumulator {
    if mapped && v.count > 0 then MergeOperation(a, key, v) else a
  }

  function CgroupKey(c: Config, k: KernelCgroupOperation): DeviceOperation {
    KernelKey(c.lower, k.major, k.minor, k.operation)
  }

  /** The accumulator of one VM after the kernel values. */
  function MergeAll(c: Config, ks: seq<KernelCgroupOperation>, vm: nat): Accumulator {
    if ks == [] then NEW_ACCUMULATOR else
    var k := ks[|ks| - 1];
    MergeIf(Mapped(c, k, vm), MergeAll(c, ks[..|ks| - 1], vm), CgroupKey(c, k), k.latency.latency)
  }

  lemma KernelStep(c: Config, s: State, k: KernelCgroupOperation, vm: nat)
    ensures VMAccumulator(AfterKernelOperation(c, s, k), vm)
            == MergeIf(Mapped(c, k, vm), VMAccumulator(s, vm), CgroupKey(c, k), k.latency.latency)
  {
  }

  lemma {:induction false} KernelIsMergeAll(c: Config, ks: seq<KernelCgroupOperation>, vm: nat)
    ensures VMAccumulator(AfterKernelOperations(c, INITIAL, ks), vm) == MergeAll(c, ks, vm)
  {
    if ks == [] {
    } else {
      var n := |ks| - 1;
      KernelIsMergeAll(c, ks[..n], vm);
      KernelStep(c, AfterKernelOperations(c, INITIAL, ks[..n]), ks[n], vm);
    }
  }

  ghost predicate AllDescribe(ks: seq<KernelCgroupOperation>, logs: seq<seq<u64>>) {
    |ks| == |logs| && forall i :: 0 <= i < |ks| ==> Describes(ks[i].latency.latency, logs[i])
  }

  lemma {:induction false} MergeAllIsLog(c: Config, ks: seq<KernelCgroupOperation>, logs: seq<seq<u64>>, vm: nat)
    requires AllDescribe(ks, logs) && |Flatten(logs)| < TWO_64
    ensures Aggregates(MergeAll(c, ks, vm), LogOf(c, ks, logs, vm))
  {
    if ks == [] {
      EmptyDescribes();
    } else {
      var n := |ks| - 1;
      MergeAllIsLog(c, ks[..n], logs[..n], vm);
      LogOfAtMost(c, ks[..n], logs[..n], vm);
      if Mapped(c, ks[n], vm) {
        MergeStep(
          MergeAll(c, ks[..n], vm), CgroupKey(c, ks[n]), ks[n].latency.latency, LogOf(c, ks[..n], logs[..n], vm), logs[n]);
      }
    }
  }

  /** Kernel values that aggregate logs give each VM the aggregate of its logs, and
      operation counters that add up to its count. */
  lemma KernelIsLog(c: Config, ks: seq<KernelCgroupOperation>, logs: seq<seq<u64>>, vm: nat)
    requires AllDescribe(ks, logs) && |Flatten(logs)| < TWO_64
    ensures Aggregates(VMAccumulator(AfterKernelOperations(c, INITIAL, ks), vm), LogOf(c, ks, logs, vm))
  {
    KernelIsMergeAll(c, ks, vm);
    MergeAllIsLog(c, ks, logs, vm);
  }

  lemma AddOperation(o: Operations, op: Operation, count: u64)
    requires SumOf(o) + count <= MAX_U64
    ensures SumOf(AddToOperation(o, op, count)) == SumOf(o) + count
  {
  }

  lemma MergeStep(a: Accumulator, key: DeviceOperation, v: Totals, xs: seq<u64>, ys: seq<u64>)
    requires Aggregates(a, xs) && Describes(v, ys) && |xs| + |ys| < TWO_64
    ensures Aggregates(MergeIf(true, a, key, v), xs + ys)
  {
    if ys == [] {
      assert xs + ys == xs;
    } else {
      MergedDescribes(a.latency, v, xs, ys);
      AddOperation(a.operations, key.operation, v.count);
    }
  }

  // ----- the host's device listing -----

  /** The latencies behind the host's kernel values of one device and operation. */
  function DeviceLog(
    lower: string -> string, ks: seq<KernelDeviceOperation>, logs: seq<seq<u64>>, key: DeviceOperation): seq<u64>
    requires |ks| == |logs|
  {
    if ks == [] then [] else
    var n := |ks| - 1;
    var rest := DeviceLog(lower, ks[..n], logs[..n], key);
    if KernelKey(lower, ks[n].major, ks[n].minor, ks[n].operation) == key then rest + logs[n] else rest
  }

  /** Some kernel value is of this device and operation. */
  predicate Reported(lower: string -> string, ks: seq<KernelDeviceOperation>, key: DeviceOperation) {
    ks != []
    && var k := ks[|ks| - 1];
       (KernelKey(lower, k.major, k.minor, k.operation) == key || Reported(lower, ks[..|ks| - 1], key))
  }

  ghost predicate AllDescribed(ks: seq<KernelDeviceOperation>, logs: seq<seq<u64>>) {
    |ks| == |logs| && forall i :: 0 <= i < |ks| ==> Describes(ks[i].latency.latency, logs[i])
  }

  /** A map has, for one key, the aggregate of a log. */
  ghost predicate Holds(m: map<DeviceOperation, Totals>, key: DeviceOperation, present: bool, xs: seq<u64>) {
    (key in m <==> present) && Describes(Lookup(m, key, Empty()), xs)
  }

  lemma MergeIntoHolds(m: map<DeviceOperation, Totals>, own: DeviceOperation, v: Totals, key: DeviceOperation,
                       present: bool, xs: seq<u64>, ys: seq<u64>)
    requires Holds(m, key, present, xs) && Describes(v, ys) && |xs| + |ys| < TWO_64
    ensures Holds(MergeInto(m, own, v), key, present || own == key, if own == key then xs + ys else xs)
  {
    if own == key { MergedDescribes(Lookup(m, key, Empty()), v, xs, ys); }
  }

  lemma {:induction false} MergedDevicesHold(lower: string -> string, ks: seq<KernelDeviceOperation>,
                                             logs: seq<seq<u64>>, key: DeviceOperation)
    requires AllDescribed(ks, logs) && |Flatten(logs)| < TWO_64
    ensures |DeviceLog(lower, ks, logs, key)| <= |Flatten(logs)|
    ensures Holds(MergeDevices(lower, map[], ks), key, Reported(lower, ks, key), DeviceLog(lower, ks, logs, key))
  {
    if ks == [] {
      EmptyDescribes();
    } else {
      var n := |ks| - 1;
      var own := KernelKey(lower, ks[n].major, ks[n].minor, ks[n].operation);
      MergedDevicesHold(lower, ks[..n], logs[..n], key);
      MergeIntoHolds(
        MergeDevices(lower, map[], ks[..n]), own, ks[n].latency.latency, key, Reported(lower, ks[..n], key),
        DeviceLog(lower, ks[..n], logs[..n], key), logs[n]);
    }
  }

  /** The host's listing has one line for every device and operation with a kernel value,
      and its figures aggregate the logs of those values. */
  lemma HostListingIsLog(c: Config, s: State, stats: KernelStats, logs: seq<seq<u64>>, n: nat, available: bool, r: Report)
    requires AllDescribed(stats.hostDeviceOperations, logs) && |Flatten(logs)| < TWO_64
    requires IsReport(s, KernelAfterStats(c.lower, NO_KERNEL, stats), n, available, r)
    ensures forall i: nat :: i < |r.hostDeviceOperations| ==>
              var line := r.hostDeviceOperations[i];
              Describes(line.totals, DeviceLog(c.lower, stats.hostDeviceOperations, logs, line.key))
    ensures forall key :: Reported(c.lower, stats.hostDeviceOperations, key) <==> key in KeysOf(r.hostDeviceOperations)
  {
    var m := MergeDevices(c.lower, map[], stats.hostDeviceOperations);
    ListedKeys(r.hostDeviceOperations, m);
    forall key
      ensures key in m <==> Reported(c.lower, stats.hostDeviceOperations, key)
      ensures Describes(Lookup(m, key, Empty()), DeviceLog(c.lower, stats.hostDeviceOperations, logs, key))
    {
      MergedDevicesHold(c.lower, stats.hostDeviceOperations, logs, key);
    }
  }
}
