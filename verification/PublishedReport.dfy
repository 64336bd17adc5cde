/** What the published report of a run of events says, in terms of the completed requests:
    every row, every device line, and the host's figures. */
module PublishedReport {
  import opened Words
  import opened Sorting
  import opened Histogram
  import opened Devices
  import opened Aggregator
  import opened EventLog
  import opened Report

  lemma {:induction false} SelectShort(c: Config, ms: seq<Measurement>, sel: Selector)
    ensures |Select(c, ms, sel)| <= |ms|
  {
    if ms == [] {
    } else {
      SelectShort(c, ms[..|ms| - 1], sel);
    }
  }

  lemma SelectedLog(c: Config, events: seq<Event>, sel: Selector)
    requires |events| < TWO_64
    ensures var xs := Select(c, Completed(c, events), sel); |xs| <= |events| && Describes(FromLog(xs), xs)
  {
    CompletedCount(c, events);
    SelectShort(c, Completed(c, events), sel);
    FromLogDescribes(Select(c, Completed(c, events), sel));
  }

  /** The device lines of a VM are those of its completed requests, one for each device and
      operation that has any. */
  ghost predicate LinesShow(c: Config, ms: seq<Measurement>, vm: nat, lines: seq<DeviceSummary>) {
    && (forall i: nat :: i < |lines| ==> Describes(lines[i].totals, Select(c, ms, OfDevice(vm, lines[i].key))))
    && (forall key :: key in KeySet(lines) <==> Select(c, ms, OfDevice(vm, key)) != [])
  }

  /** The row of a VM says what its completed requests say. */
  ghost predicate RowShows(c: Config, ms: seq<Measurement>, vm: nat, row: VMRow) {
    var xs := Select(c, ms, OfVM(vm));
    && Describes(row.latency, xs) && row.totalOps == |xs|
    && OperationsAgree(c, ms, vm, row.operations) && LinesShow(c, ms, vm, row.deviceOperations)
    && Increasing(row.devices)
    && forall device :: device in row.devices <==> device != "" && Select(c, ms, OnDevice(vm, device)) != []
  }

  lemma LinesAreLog(c: Config, events: seq<Event>, vm: nat, lines: seq<DeviceSummary>, m: map<DeviceOperation, Totals>)
    requires |events| < TWO_64 && Lists(lines, m) && DevicesAgree(c, Completed(c, events), vm, m)
    ensures LinesShow(c, Completed(c, events), vm, lines)
  {
    var ms := Completed(c, events);
    forall i: nat | i < |lines|
      ensures Describes(lines[i].totals, Select(c, ms, OfDevice(vm, lines[i].key)))
    {
      assert DeviceAgrees(c, ms, vm, m, lines[i].key);
      SelectedLog(c, events, OfDevice(vm, lines[i].key));
    }
    forall key
      ensures key in KeySet(lines) <==> Select(c, ms, OfDevice(vm, key)) != []
    {
      assert DeviceAgrees(c, ms, vm, m, key);
    }
  }

  lemma RowIsLog(c: Config, events: seq<Event>, vm: nat, available: bool, row: VMRow)
    requires |events| < TWO_64 && IsRow(RunAll(c, events), vm, available, row)
    ensures RowShows(c, Completed(c, events), vm, row)
  {
    AttributionIsLog(c, events);
    SelectedLog(c, events, OfVM(vm));
    var a := Lookup(RunAll(c, events).byVM, vm, NEW_ACCUMULATOR);
    assert AccumulatorAgrees(c, Completed(c, events), vm, a);
    LinesAreLog(c, events, vm, row.deviceOperations, a.deviceOperations);
  }

  lemma {:induction false} MatchedIsCount(rows: seq<VMRow>)
    ensures Matched(rows) == |set vm: nat | vm < |rows| && rows[vm].totalOps > 0|
  {
    var found := set vm: nat | vm < |rows| && rows[vm].totalOps > 0;
    if rows == [] {
      assert found == {};
    } else {
      var n := |rows| - 1;
      var before := set vm: nat | vm < n && rows[..n][vm].totalOps > 0;
      MatchedIsCount(rows[..n]);
      assert found == before + if rows[n].totalOps > 0 then {n} else {};
    }
  }

  /** After any events, and kernel statistics without values, the report's row for each VM
      shows exactly the completed requests of the cgroups that the index maps to it, the
      host's figures all completed requests, and the matched VMs are those with any. */
  lemma ReportIsLog(c: Config, events: seq<Event>, stats: KernelStats, n: nat, available: bool, r: Aggregator.Report)
    requires |events| < TWO_64 && IsEventReport(c, events, stats, n, available, r)
    ensures var ms := Completed(c, events);
            && |r.rows| == n && (forall vm: nat :: vm < n ==> RowShows(c, ms, vm, r.rows[vm]))
            && Describes(r.hostLatency, Select(c, ms, Everything)) && r.hostTotalOps == |ms|
            && r.summary.matchedVMCount == |set vm: nat | vm < n && Select(c, ms, OfVM(vm)) != []|
  {
    var s, k, ms := RunAll(c, events), KernelAfterStats(c.lower, NO_KERNEL, stats), Completed(c, events);
    SilentChangesNothing(c, s, stats);
    assert IsFinal(c, events, stats, s, k);
    assert IsReport(s, k, n, available, r);
    forall vm: nat | vm < n
      ensures RowShows(c, ms, vm, r.rows[vm])
    {
      RowIsLog(c, events, vm, available, r.rows[vm]);
    }
    HostIsLog(c, events);
    CompletedCount(c, events);
    AttributionIsLog(c, events);
    SelectedLog(c, events, Everything);
    MatchedIsCount(r.rows);
    SameVMs(c, ms, n, r.rows);
  }

  lemma SameVMs(c: Config, ms: seq<Measurement>, n: nat, rows: seq<VMRow>)
    requires |rows| == n && forall vm: nat :: vm < n ==> RowShows(c, ms, vm, rows[vm])
    ensures (set vm: nat | vm < n && rows[vm].totalOps > 0) == set vm: nat | vm < n && Select(c, ms, OfVM(vm)) != []
  {
  }
}
