/** The per-VM block-latency aggregator: it correlates issue and completion events, and
    folds the latencies into per-VM, per-device and host histograms. */
module Aggregator {
  import opened Words
  import opened Histogram
  import opened Sorting
  import opened Devices

  datatype Kind = Issue | Complete | OtherKind

  /** One event as the source delivers it. */
  datatype RawEvent = RawEvent(
    kind: string, requestPointer: u64, timestampNs: u64, cgroupId: u64, device: string, operation: string,
    missingBio: bool, missingBlkcg: bool, requeueOrReissue: bool, unsupportedRequest: bool,
    stackedDeviceAmbiguous: bool)

  /** One event with its kind, device and operation normalised. */
  datatype Event = Event(
    kind: Kind, requestPointer: u64, timestampNs: u64, cgroupId: u64, device: string, operation: Operation,
    missingBio: bool, missingBlkcg: bool, requeueOrReissue: bool, unsupportedRequest: bool,
    stackedDeviceAmbiguous: bool)

  function NormalizeKind(lower: string -> string, kind: string): Kind {
    var name := lower(Trim(kind));
    if name == "issue" then Issue else if name == "complete" then Complete else OtherKind
  }

  function Normalized(lower: string -> string, e: RawEvent): Event {
    Event(
      NormalizeKind(lower, e.kind), e.requestPointer, e.timestampNs, e.cgroupId, Trim(e.device),
      NormalizeOperation(lower, e.operation), e.missingBio, e.missingBlkcg, e.requeueOrReissue,
      e.unsupportedRequest, e.stackedDeviceAmbiguous)
  }

  datatype Pending = Pending(timestampNs: u64, cgroupId: u64, device: string, operation: Operation, filteredOut: bool)

  const FILTERED_OUT := Pending(0, 0, "", Unknown, true)

  datatype Accumulator = Accumulator(
    latency: Totals, deviceOperations: map<DeviceOperation, Totals>, devices: set<string>, operations: Operations)

  const NEW_ACCUMULATOR := Accumulator(Empty(), map[], {}, NO_OPERATIONS)

  /** The loss counters of the report. */
  datatype Unattributed = Unattributed(
    missingBio: u64, missingBlkcg: u64, unmappedCgroup: u64, lookupMiss: u64, duplicateIssue: u64,
    requeueOrReissue: u64, unsupportedRequest: u64, stackedDeviceAmbiguous: u64, incompleteAtWindowEnd: u64,
    droppedEvents: u64, ringBufferLost: u64, mapFull: u64, metadataUnavailable: u64, deviceUnavailable: u64,
    operationUnknown: u64)

  const NO_LOSS := Unattributed(0, 0, 0, 0, 0, 0, 0, 0, 0, 0, 0, 0, 0, 0, 0)

  /** The aggregator's contents. */
  datatype State = State(issues: map<u64, Pending>, byVM: map<nat, Accumulator>, host: Totals, lost: Unattributed)

  const INITIAL := State(map[], map[], Empty(), NO_LOSS)

  /** What the aggregator is built with; lower is the library's lower-casing of a text. */
  datatype Config = Config(index: map<u64, nat>, filter: string, lower: string -> string)

  // ----- what one event does -----

  function Lookup<K, V>(m: map<K, V>, k: K, otherwise: V): V {
    if k in m then m[k] else otherwise
  }

  function CountOperation(o: Operations, op: Operation): Operations {
    match op
    case Read => o.(readOps := Bump(o.readOps))
    case Write => o.(writeOps := Bump(o.writeOps))
    case Flush => o.(flushOps := Bump(o.flushOps))
    case Discard => o.(discardOps := Bump(o.discardOps))
    case Unknown => o.(unknownOps := Bump(o.unknownOps))
  }

  function DeviceName(device: string): string {
    if device != "" then device else "-"
  }

  function KeyOf(issue: Pending): DeviceOperation {
    DeviceOperation(DeviceName(issue.device), issue.operation)
  }

  /** One completed request of a VM. */
  function Accumulate(a: Accumulator, issue: Pending, latencyNs: u64): Accumulator {
    var key := KeyOf(issue);
    Accumulator(
      Observed(a.latency, latencyNs),
      a.deviceOperations[key := Observed(Lookup(a.deviceOperations, key, Empty()), latencyNs)],
      if issue.device != "" then a.devices + {issue.device} else a.devices,
      CountOperation(a.operations, issue.operation))
  }

  function AfterIssue(c: Config, s: State, e: Event): State {
    var lost := s.lost;
    if e.unsupportedRequest || e.requestPointer == 0 || e.timestampNs == 0 then
      s.(lost := lost.(unsupportedRequest := Bump(lost.unsupportedRequest)))
    else if c.filter != "" && e.device != c.filter then
      s.(issues := s.issues[e.requestPointer := FILTERED_OUT])
    else if e.missingBio then
      s.(lost := lost.(missingBio := Bump(lost.missingBio)))
    else if e.missingBlkcg || e.cgroupId == 0 then
      s.(lost := lost.(missingBlkcg := Bump(lost.missingBlkcg)))
    else if e.stackedDeviceAmbiguous then
      s.(lost := lost.(stackedDeviceAmbiguous := Bump(lost.stackedDeviceAmbiguous)))
    else
      AfterStore(s, e.requestPointer, Pending(e.timestampNs, e.cgroupId, e.device, e.operation, false), e.requeueOrReissue)
  }

  /** A stored request counts when it replaces a pending one. */
  function AfterStore(s: State, pointer: u64, pending: Pending, reissue: bool): State {
    var lost := s.lost;
    var counted :=
      if pointer !in s.issues then lost
      else if reissue then lost.(requeueOrReissue := Bump(lost.requeueOrReissue))
      else lost.(duplicateIssue := Bump(lost.duplicateIssue));
    s.(issues := s.issues[pointer := pending], lost := counted)
  }

  function AfterComplete(c: Config, s: State, pointer: u64, timestampNs: u64): State {
    var lost := s.lost;
    if pointer !in s.issues then
      s.(lost := lost.(lookupMiss := Bump(lost.lookupMiss)))
    else
      var issue := s.issues[pointer];
      var rest := s.(issues := s.issues - {pointer});
      if issue.filteredOut then
        rest
      else if timestampNs < issue.timestampNs then
        rest.(lost := lost.(unsupportedRequest := Bump(lost.unsupportedRequest)))
      else
        AfterLatency(c, rest, issue, timestampNs - issue.timestampNs)
  }

  /** A measured latency belongs to the host, and to the VM that owns the cgroup. */
  function AfterLatency(c: Config, s: State, issue: Pending, latencyNs: u64): State {
    var measured := s.(host := Observed(s.host, latencyNs));
    if issue.cgroupId !in c.index then
      measured.(lost := s.lost.(unmappedCgroup := Bump(s.lost.unmappedCgroup)))
    else
      var vm := c.index[issue.cgroupId];
      measured.(byVM := s.byVM[vm := Accumulate(Lookup(s.byVM, vm, NEW_ACCUMULATOR), issue, latencyNs)])
  }

  function After(c: Config, s: State, e: Event): State {
    match e.kind
    case Issue => AfterIssue(c, s, e)
    case Complete => AfterComplete(c, s, e.requestPointer, e.timestampNs)
    case OtherKind => s.(lost := s.lost.(unsupportedRequest := Bump(s.lost.unsupportedRequest)))
  }

  /** What one event does as the source delivers it. */
  function AfterRaw(c: Config, s: State, e: RawEvent): State {
    After(c, s, Normalized(c.lower, e))
  }

  /** The state after a list of events, first to last. */
  function RunAll(c: Config, events: seq<Event>): State {
    if events == [] then INITIAL else After(c, RunAll(c, events[..|events| - 1]), events[|events| - 1])
  }

  // ----- kernel aggregates -----

  datatype KernelCgroupOperation = KernelCgroupOperation(
    cgroupId: u64, major: u32, minor: u32, operation: string, latency: KernelLatency)

  /** The device and operation a kernel value is listed under. */
  function KernelKey(lower: string -> string, major: u32, minor: u32, operation: string): DeviceOperation {
    DeviceOperation(DeviceNumber(major, minor), NormalizeOperation(lower, operation))
  }

  function AddToOperation(o: Operations, op: Operation, count: u64): Operations {
    match op
    case Read => o.(readOps := SaturatingAdd(o.readOps, count))
    case Write => o.(writeOps := SaturatingAdd(o.writeOps, count))
    case Flush => o.(flushOps := SaturatingAdd(o.flushOps, count))
    case Discard => o.(discardOps := SaturatingAdd(o.discardOps, count))
    case Unknown => o.(unknownOps := SaturatingAdd(o.unknownOps, count))
  }

  function MergeOperation(a: Accumulator, key: DeviceOperation, v: Totals): Accumulator {
    Accumulator(
      Merged(a.latency, v), MergeInto(a.deviceOperations, key, v), a.devices + {key.device},
      AddToOperation(a.operations, key.operation, v.count))
  }

  function MergeInto(m: map<DeviceOperation, Totals>, key: DeviceOperation, v: Totals): map<DeviceOperation, Totals> {
    m[key := Merged(Lookup(m, key, Empty()), v)]
  }

  function AfterKernelOperation(c: Config, s: State, k: KernelCgroupOperation): State {
    var count := k.latency.latency.count;
    if count == 0 then s
    else if k.cgroupId !in c.index then
      s.(lost := s.lost.(unmappedCgroup := SaturatingAdd(s.lost.unmappedCgroup, count)))
    else
      var vm, key := c.index[k.cgroupId], KernelKey(c.lower, k.major, k.minor, k.operation);
      s.(byVM := s.byVM[vm := MergeOperation(Lookup(s.byVM, vm, NEW_ACCUMULATOR), key, k.latency.latency)])
  }

  datatype KernelDeviceOperation = KernelDeviceOperation(
    major: u32, minor: u32, operation: string, latency: KernelLatency)

  datatype CollectionMode = HostOnly | VMAttributed | OtherMode(name: string)

  datatype AttributionMethod = HostCorrelation | VMOwnership | OtherMethod(name: string)

  /** The counters of the kernel programs. */
  datatype KernelCounters = KernelCounters(
    issueSeen: u64, completeSeen: u64, nullRequest: u64, duplicateIssue: u64, lookupMiss: u64,
    incompleteAtWindowEnd: u64, mapFull: u64, completedLatencyEvents: u64, metadataUnavailable: u64,
    deviceUnavailable: u64, operationUnknown: u64, missingBio: u64, missingBlkcg: u64)

  const NO_COUNTERS := KernelCounters(0, 0, 0, 0, 0, 0, 0, 0, 0, 0, 0, 0, 0)

  /** What the kernel source reports at the end of a window; an empty mode or method is
      None. */
  datatype KernelStats = KernelStats(
    mode: Option<CollectionMode>, attribution: Option<AttributionMethod>, counters: KernelCounters,
    hostLatency: KernelLatency, hostDeviceOperations: seq<KernelDeviceOperation>,
    cgroupOperations: seq<KernelCgroupOperation>, droppedEvents: u64, ringBufferLost: u64, mapFull: u64)

  /** The parts of the aggregator and its report that only kernel statistics change. */
  datatype KernelPart = KernelPart(
    mode: CollectionMode, attribution: AttributionMethod, counters: KernelCounters, hostOperations: Operations,
    hostDeviceOperations: map<DeviceOperation, Totals>)

  const NO_KERNEL := KernelPart(HostOnly, HostCorrelation, NO_COUNTERS, NO_OPERATIONS, map[])

  function MergeDevices(lower: string -> string, m: map<DeviceOperation, Totals>, ks: seq<KernelDeviceOperation>)
    : map<DeviceOperation, Totals>
  {
    if ks == [] then m else
    var k := ks[|ks| - 1];
    MergeInto(MergeDevices(lower, m, ks[..|ks| - 1]), KernelKey(lower, k.major, k.minor, k.operation), k.latency.latency)
  }

  function AfterKernelOperations(c: Config, s: State, ks: seq<KernelCgroupOperation>): State {
    if ks == [] then s else AfterKernelOperation(c, AfterKernelOperations(c, s, ks[..|ks| - 1]), ks[|ks| - 1])
  }

  /** Kernel losses are added, and never wrap, except two counters of older sources. */
  function AddKernelLoss(lost: Unattributed, stats: KernelStats): Unattributed {
    var k := stats.counters;
    lost.(
      droppedEvents := Wrap(lost.droppedEvents as int + stats.droppedEvents),
      ringBufferLost := Wrap(lost.ringBufferLost as int + stats.ringBufferLost),
      lookupMiss := SaturatingAdd(lost.lookupMiss, k.lookupMiss),
      duplicateIssue := SaturatingAdd(lost.duplicateIssue, k.duplicateIssue),
      incompleteAtWindowEnd := SaturatingAdd(lost.incompleteAtWindowEnd, k.incompleteAtWindowEnd),
      metadataUnavailable := SaturatingAdd(lost.metadataUnavailable, k.metadataUnavailable),
      deviceUnavailable := SaturatingAdd(lost.deviceUnavailable, k.deviceUnavailable),
      operationUnknown := SaturatingAdd(lost.operationUnknown, k.operationUnknown),
      missingBio := SaturatingAdd(lost.missingBio, k.missingBio),
      missingBlkcg := SaturatingAdd(lost.missingBlkcg, k.missingBlkcg),
      mapFull := SaturatingAdd(lost.mapFull, Max(k.mapFull, stats.mapFull)))
  }

  function AfterKernelStats(c: Config, s: State, stats: KernelStats): State {
    var merged := s.(host := Merged(s.host, stats.hostLatency.latency));
    var after := AfterKernelOperations(c, merged, stats.cgroupOperations);
    after.(lost := AddKernelLoss(after.lost, stats))
  }

  function KernelAfterStats(lower: string -> string, k: KernelPart, stats: KernelStats): KernelPart {
    KernelPart(
      OrElse(stats.mode, k.mode), OrElse(stats.attribution, k.attribution), stats.counters,
      stats.hostLatency.operations, MergeDevices(lower, k.hostDeviceOperations, stats.hostDeviceOperations))
  }

  function OrElse<T>(given: Option<T>, otherwise: T): T {
    if given.Some? then given.value else otherwise
  }

  // ----- the report -----

  datatype Quality = Unavailable | NoAttributedEvents | PartialCollection | Available | Degraded

  datatype VMRow = VMRow(
    operations: Operations, totalOps: u64, devices: seq<string>, latency: Totals,
    deviceOperations: seq<DeviceSummary>, quality: Quality)

  datatype Summary = Summary(attributedOps: u64, unattributedOps: u64, attributedPercent: real, matchedVMCount: nat)

  datatype Report = Report(
    rows: seq<VMRow>, hostOperations: Operations, hostTotalOps: u64, hostLatency: Totals,
    hostDeviceOperations: seq<DeviceSummary>, lost: Unattributed, totalUnattributedOps: u64,
    unattributedPercent: real, summary: Summary)

  /** The pending requests that were not filtered out. */
  function Waiting(issues: map<u64, Pending>): set<u64> {
    set pointer | pointer in issues && !issues[pointer].filteredOut
  }

  function RowQuality(attributed: bool, available: bool): Quality {
    if attributed then (if available then Unavailable else PartialCollection)
    else if available then NoAttributedEvents else Unavailable
  }

  /** A VM's row shows its accumulator; a VM without one has an empty row. */
  ghost predicate IsRow(s: State, vm: nat, available: bool, row: VMRow) {
    var a := Lookup(s.byVM, vm, NEW_ACCUMULATOR);
    && row.operations == a.operations && row.totalOps == a.latency.count && row.latency == a.latency
    && Increasing(row.devices) && (forall device :: device in row.devices <==> device in a.devices)
    && Lists(row.deviceOperations, a.deviceOperations)
    && row.quality == RowQuality(vm in s.byVM, available)
  }

  /** One row for each VM. */
  ghost predicate AreRows(s: State, available: bool, rows: seq<VMRow>) {
    forall vm: nat :: vm < |rows| ==> IsRow(s, vm, available, rows[vm])
  }

  function OperationField(o: Operations, op: Operation): u64 {
    match op
    case Read => o.readOps
    case Write => o.writeOps
    case Flush => o.flushOps
    case Discard => o.discardOps
    case Unknown => o.unknownOps
  }

  function OperationSum(rows: seq<VMRow>, op: Operation): nat {
    if rows == [] then 0
    else OperationSum(rows[..|rows| - 1], op) + OperationField(rows[|rows| - 1].operations, op)
  }

  function TotalSum(rows: seq<VMRow>): nat {
    if rows == [] then 0 else TotalSum(rows[..|rows| - 1]) + rows[|rows| - 1].totalOps
  }

  function Matched(rows: seq<VMRow>): nat {
    if rows == [] then 0 else Matched(rows[..|rows| - 1]) + (if rows[|rows| - 1].totalOps > 0 then 1 else 0)
  }

  function SumOf(o: Operations): nat {
    o.readOps + o.writeOps + o.flushOps + o.discardOps + o.unknownOps
  }

  function Percent(part: u64, whole: u64): real
    requires whole > 0
  {
    part as real / whole as real * 100.0
  }

  ghost predicate AreSums(o: Operations, rows: seq<VMRow>) {
    && o.readOps == Wrap(OperationSum(rows, Read)) && o.writeOps == Wrap(OperationSum(rows, Write))
    && o.flushOps == Wrap(OperationSum(rows, Flush)) && o.discardOps == Wrap(OperationSum(rows, Discard))
    && o.unknownOps == Wrap(OperationSum(rows, Unknown))
  }

  /** Host operations that no VM accounts for are of unknown kind. */
  function WithRest(sums: Operations, hostCount: u64, attributed: u64): Operations {
    if hostCount > attributed then sums.(unknownOps := SaturatingAdd(sums.unknownOps, hostCount - attributed))
    else sums
  }

  /** The host's operation counts: the kernel's when it has any, otherwise those of the
      VMs, with the rest of the host count as unknown. */
  ghost predicate HostOperationsOf(rows: seq<VMRow>, k: KernelPart, hostCount: u64, attributed: u64, o: Operations) {
    if Wrap(SumOf(k.hostOperations)) > 0 then o == k.hostOperations
    else exists sums :: AreSums(sums, rows) && o == WithRest(sums, hostCount, attributed)
  }

  /** The operations that could not be attributed. */
  function UnattributedTotal(mode: CollectionMode, lost: Unattributed, hostCount: u64, attributed: u64): u64 {
    if mode == VMAttributed then
      SaturatingAdd(if hostCount > attributed then hostCount - attributed else 0,
                    SaturatingAdd(lost.lookupMiss, lost.incompleteAtWindowEnd))
    else
      Wrap(lost.missingBio as int + lost.missingBlkcg + lost.unmappedCgroup + lost.lookupMiss
           + lost.unsupportedRequest + lost.stackedDeviceAmbiguous + lost.incompleteAtWindowEnd + lost.mapFull)
  }

  /** The report that finishing a window gives. */
  ghost predicate IsReport(s: State, k: KernelPart, vmCount: nat, available: bool, r: Report) {
    && |r.rows| == vmCount && AreRows(s, available, r.rows)
    && r.lost == s.lost.(incompleteAtWindowEnd := Wrap(s.lost.incompleteAtWindowEnd + |Waiting(s.issues)|))
    && r.summary.attributedOps == Min(TotalSum(r.rows), MAX_U64)
    && HostOperationsOf(r.rows, k, s.host.count, r.summary.attributedOps, r.hostOperations)
    && r.hostTotalOps == s.host.count && r.hostLatency == s.host
    && Lists(r.hostDeviceOperations, k.hostDeviceOperations)
    && r.totalUnattributedOps == UnattributedTotal(k.mode, r.lost, s.host.count, r.summary.attributedOps)
    && r.summary.unattributedOps == r.totalUnattributedOps
    && r.summary.matchedVMCount == Matched(r.rows)
    && var denominator := Wrap(r.summary.attributedOps as int + r.totalUnattributedOps);
       && r.unattributedPercent == (if denominator > 0 then Percent(r.totalUnattributedOps, denominator) else 0.0)
       && r.summary.attributedPercent == (if denominator > 0 then Percent(r.summary.attributedOps, denominator) else 0.0)
  }

  // ----- the aggregator -----

  class VMBlockEventAggregator {
    const config: Config
    const hostLatency: BoundedHistogram
    var issues: map<u64, Pending>
    var byVM: map<nat, Accumulator>
    var lost: Unattributed
    var kernel: KernelPart

    ghost predicate Valid()
      reads this, hostLatency
    {
      hostLatency.Valid()
    }

    ghost function Contents(): State
      requires Valid()
      reads this, hostLatency, hostLatency.buckets
    {
      State(issues, byVM, hostLatency.Contents(), lost)
    }

    constructor (index: map<u64, nat>, deviceFilter: string, lower: string -> string)
      ensures Valid() && fresh(hostLatency) && fresh(hostLatency.buckets)
      ensures config == Config(index, Trim(deviceFilter), lower) && Contents() == INITIAL && kernel == NO_KERNEL
    {
      config := Config(index, Trim(deviceFilter), lower);
      hostLatency := new BoundedHistogram();
      issues, byVM, lost, kernel := map[], map[], NO_LOSS, NO_KERNEL;
    }

    method Consume(event: RawEvent)
      requires Valid()
      modifies this, hostLatency, hostLatency.buckets
      ensures Valid() && kernel == old(kernel) && Contents() == AfterRaw(config, old(Contents()), event)
    {
      match NormalizeKind(config.lower, event.kind)
      case Issue => RecordIssue(event);
      case Complete => RecordComplete(event);
      case OtherKind => lost := lost.(unsupportedRequest := Bump(lost.unsupportedRequest));
    }

    method RecordIssue(event: RawEvent)
      requires Valid()
      modifies this`issues, this`lost
      ensures Valid() && kernel == old(kernel)
      ensures Contents() == AfterIssue(config, old(Contents()), Normalized(config.lower, event))
    {
      if event.unsupportedRequest || event.requestPointer == 0 || event.timestampNs == 0 {
        lost := lost.(unsupportedRequest := Bump(lost.unsupportedRequest));
        return;
      }
      if config.filter != "" && Trim(event.device) != config.filter {
        issues := issues[event.requestPointer := FILTERED_OUT];
        return;
      }
      if event.missingBio {
        lost := lost.(missingBio := Bump(lost.missingBio));
        return;
      }
      if event.missingBlkcg || event.cgroupId == 0 {
        lost := lost.(missingBlkcg := Bump(lost.missingBlkcg));
        return;
      }
      if event.stackedDeviceAmbiguous {
        lost := lost.(stackedDeviceAmbiguous := Bump(lost.stackedDeviceAmbiguous));
        return;
      }
      var operation := NormalizeOperation(config.lower, event.operation);
      Store(event.requestPointer, Pending(event.timestampNs, event.cgroupId, Trim(event.device), operation, false),
            event.requeueOrReissue);
    }

    method Store(pointer: u64, pending: Pending, reissue: bool)
      requires Valid()
      modifies this`issues, this`lost
      ensures Valid() && kernel == old(kernel) && Contents() == AfterStore(old(Contents()), pointer, pending, reissue)
    {
      if pointer in issues {
        if reissue {
          lost := lost.(requeueOrReissue := Bump(lost.requeueOrReissue));
        } else {
          lost := lost.(duplicateIssue := Bump(lost.duplicateIssue));
        }
      }
      issues := issues[pointer := pending];
    }

    method RecordComplete(event: RawEvent)
      requires Valid()
      modifies this, hostLatency, hostLatency.buckets
      ensures Valid() && kernel == old(kernel)
      ensures Contents() == AfterComplete(config, old(Contents()), event.requestPointer, event.timestampNs)
    {
      if event.requestPointer !in issues {
        lost := lost.(lookupMiss := Bump(lost.lookupMiss));
        return;
      }
      var issue := issues[event.requestPointer];
      issues := issues - {event.requestPointer};
      if issue.filteredOut {
        return;
      }
      if event.timestampNs < issue.timestampNs {
        lost := lost.(unsupportedRequest := Bump(lost.unsupportedRequest));
        return;
      }
      RecordLatency(issue, event.timestampNs - issue.timestampNs);
    }

    method RecordLatency(issue: Pending, latencyNs: u64)
      requires Valid()
      modifies this, hostLatency, hostLatency.buckets
      ensures Valid() && kernel == old(kernel)
      ensures Contents() == AfterLatency(config, old(Contents()), issue, latencyNs)
    {
      hostLatency.Observe(latencyNs);
      if issue.cgroupId !in config.index {
        lost := lost.(unmappedCgroup := Bump(lost.unmappedCgroup));
        return;
      }
      var mappingIndex := config.index[issue.cgroupId];
      var accumulator := NEW_ACCUMULATOR;
      if mappingIndex in byVM {
        accumulator := byVM[mappingIndex];
      }
      accumulator := AddCompletion(accumulator, issue, latencyNs);
      byVM := byVM[mappingIndex := accumulator];
    }

    method RecordKernelCgroupOperation(operation: KernelCgroupOperation)
      requires Valid()
      modifies this
      ensures Valid() && kernel == old(kernel) && Contents() == AfterKernelOperation(config, old(Contents()), operation)
    {
      var count := operation.latency.latency.count;
      if count == 0 {
        return;
      }
      if operation.cgroupId !in config.index {
        lost := lost.(unmappedCgroup := SaturatingAdd(lost.unmappedCgroup, count));
        return;
      }
      var mappingIndex := config.index[operation.cgroupId];
      var a := Lookup(byVM, mappingIndex, NEW_ACCUMULATOR);
      var device := DeviceNumber(operation.major, operation.minor);
      var name := NormalizeOperation(config.lower, operation.operation);
      var key := DeviceOperation(device, name);
      var histogram := Merged(Lookup(a.deviceOperations, key, Empty()), operation.latency.latency);
      byVM := byVM[mappingIndex := Accumulator(
        Merged(a.latency, operation.latency.latency),
        a.deviceOperations[key := histogram],
        a.devices + {device},
        AddToOperation(a.operations, name, count))];
    }

    method RecordKernelStats(stats: KernelStats)
      requires Valid()
      modifies this, hostLatency, hostLatency.buckets
      ensures Valid() && Contents() == AfterKernelStats(config, old(Contents()), stats)
      ensures kernel == KernelAfterStats(config.lower, old(kernel), stats)
    {
      var mode := OrElse(stats.mode, kernel.mode);
      var attribution := OrElse(stats.attribution, kernel.attribution);
      hostLatency.MergeKernel(stats.hostLatency);
      var devices := MergeHostDevices(config.lower, kernel.hostDeviceOperations, stats.hostDeviceOperations);
      kernel := KernelPart(mode, attribution, stats.counters, stats.hostLatency.operations, devices);
      RecordKernelCgroupOperations(stats.cgroupOperations);
      lost := AddKernelLoss(lost, stats);
    }

    method RecordKernelCgroupOperations(operations: seq<KernelCgroupOperation>)
      requires Valid()
      modifies this
      ensures Valid() && kernel == old(kernel)
      ensures Contents() == AfterKernelOperations(config, old(Contents()), operations)
    {
      for i := 0 to |operations|
        invariant Valid() && kernel == old(kernel)
        invariant Contents() == AfterKernelOperations(config, old(Contents()), operations[..i])
      {
        assert operations[..i + 1][..i] == operations[..i];
        RecordKernelCgroupOperation(operations[i]);
      }
      assert operations[..|operations|] == operations;
    }

    method Row(vm: nat, collectionAvailable: bool) returns (row: VMRow)
      requires Valid()
      ensures IsRow(Contents(), vm, collectionAvailable, row)
    {
      row := VMRow(NO_OPERATIONS, 0, [], Empty(), [], Unavailable);
      if vm !in byVM {
        if collectionAvailable {
          row := row.(quality := NoAttributedEvents);
        }
      } else {
        var a := byVM[vm];
        var devices := SortedKeys(a.devices);
        var deviceOperations := DeviceOperationSummaries(a.deviceOperations);
        row := VMRow(a.operations, a.latency.count, devices, a.latency, deviceOperations, row.quality);
        if !collectionAvailable {
          row := row.(quality := PartialCollection);
        }
      }
    }

    method Rows(vmCount: nat, collectionAvailable: bool) returns (rows: seq<VMRow>)
      requires Valid()
      ensures |rows| == vmCount && AreRows(Contents(), collectionAvailable, rows)
    {
      rows := [];
      for vm := 0 to vmCount
        invariant |rows| == vm && AreRows(Contents(), collectionAvailable, rows)
      {
        var row := Row(vm, collectionAvailable);
        rows := rows + [row];
      }
    }

    method Finish(vmCount: nat, collectionAvailable: bool) returns (report: Report)
      requires Valid()
      modifies this`lost
      ensures Valid() && IsReport(old(Contents()), kernel, vmCount, collectionAvailable, report)
      ensures Contents() == old(Contents()).(lost := report.lost)
    {
      ghost var before := Contents();
      var incomplete := CountWaiting(issues, lost.incompleteAtWindowEnd);
      lost := lost.(incompleteAtWindowEnd := incomplete);
      var rows := Rows(vmCount, collectionAvailable);
      SameRows(Contents(), before, collectionAvailable, rows);
      var sums, attributed, matched := AddRows(rows);
      var hostCount := hostLatency.count;
      var operations := HostOperations(rows, kernel, hostCount, attributed, sums);
      var devices := DeviceOperationSummaries(kernel.hostDeviceOperations);
      var total := UnattributedTotal(kernel.mode, lost, hostCount, attributed);
      var denominator := Wrap(attributed as int + total);
      var unattributedPercent, attributedPercent := 0.0, 0.0;
      if denominator > 0 {
        unattributedPercent := Percent(total, denominator);
        attributedPercent := Percent(attributed, denominator);
      }
      var latency := Totals(hostLatency.count, hostLatency.totalNs, hostLatency.minNs, hostLatency.maxNs, hostLatency.buckets[..]);
      report := Report(
        rows, operations, hostCount, latency, devices, lost, total, unattributedPercent,
        Summary(attributed, total, attributedPercent, matched));
    }
  }

  /** The rows depend on the accumulators alone. */
  lemma SameRows(s: State, t: State, available: bool, rows: seq<VMRow>)
    requires AreRows(s, available, rows) && s.byVM == t.byVM
    ensures AreRows(t, available, rows)
  {
    forall vm: nat | vm < |rows|
      ensures IsRow(t, vm, available, rows[vm])
    {
      assert IsRow(s, vm, available, rows[vm]);
    }
  }

  /** One completed request added to a VM's accumulator. */
  method AddCompletion(a: Accumulator, issue: Pending, latencyNs: u64) returns (r: Accumulator)
    ensures r == Accumulate(a, issue, latencyNs)
  {
    r := a.(latency := Observed(a.latency, latencyNs));
    if issue.device != "" {
      r := r.(devices := r.devices + {issue.device});
    }
    var key := DeviceOperation(DeviceName(issue.device), issue.operation);
    var operationHistogram := Lookup(r.deviceOperations, key, Empty());
    r := r.(
      deviceOperations := r.deviceOperations[key := Observed(operationHistogram, latencyNs)],
      operations := CountOperation(r.operations, issue.operation));
  }

  method MergeHostDevices(lower: string -> string, m: map<DeviceOperation, Totals>, ks: seq<KernelDeviceOperation>)
    returns (devices: map<DeviceOperation, Totals>)
    ensures devices == MergeDevices(lower, m, ks)
  {
    devices := m;
    for i := 0 to |ks|
      invariant devices == MergeDevices(lower, m, ks[..i])
    {
      assert ks[..i + 1][..i] == ks[..i];
      var key := DeviceOperation(DeviceNumber(ks[i].major, ks[i].minor), NormalizeOperation(lower, ks[i].operation));
      devices := devices[key := Merged(Lookup(devices, key, Empty()), ks[i].latency.latency)];
    }
    assert ks[..|ks|] == ks;
  }

  lemma OneLess(waiting: set<u64>, left: set<u64>, pointer: u64)
    requires pointer in left
    ensures |waiting - (left - {pointer})| == |waiting - left| + (if pointer in waiting then 1 else 0)
  {
    if pointer in waiting {
      assert waiting - (left - {pointer}) == (waiting - left) + {pointer};
    } else {
      assert waiting - (left - {pointer}) == waiting - left;
    }
  }

  /** A counter to which the pending requests that are not left were added. */
  ghost predicate CountedTo(issues: map<u64, Pending>, start: u64, left: set<u64>, total: u64) {
    left <= issues.Keys && total == Wrap(start + |Waiting(issues) - left|)
  }

  lemma CountedNone(issues: map<u64, Pending>, start: u64)
    ensures CountedTo(issues, start, issues.Keys, start)
  {
    var waiting := Waiting(issues) - issues.Keys;
    assert |waiting| == 0 by { assert forall pointer :: pointer !in waiting; }
    SmallWrap(start);
  }

  lemma CountedStep(issues: map<u64, Pending>, start: u64, left: set<u64>, pointer: u64, total: u64)
    requires CountedTo(issues, start, left, total) && pointer in left
    ensures CountedTo(issues, start, left - {pointer}, if issues[pointer].filteredOut then total else Bump(total))
  {
    OneLess(Waiting(issues), left, pointer);
    BumpWraps(start + |Waiting(issues) - left|);
    assert pointer in Waiting(issues) <==> !issues[pointer].filteredOut;
  }

  lemma CountedAll(issues: map<u64, Pending>, start: u64, total: u64)
    requires CountedTo(issues, start, {}, total)
    ensures total == Wrap(start + |Waiting(issues)|)
  {
    assert Waiting(issues) - {} == Waiting(issues);
  }

  /** Adds the pending requests to a counter, in any order. */
  method CountWaiting(issues: map<u64, Pending>, start: u64) returns (total: u64)
    ensures total == Wrap(start + |Waiting(issues)|)
  {
    total := start;
    var left := issues.Keys;
    CountedNone(issues, start);
    while left != {}
      invariant CountedTo(issues, start, left, total)
      decreases |left|
    {
      var pointer :| pointer in left;
      CountedStep(issues, start, left, pointer, total);
      if !issues[pointer].filteredOut {
        total := Bump(total);
      }
      left := left - {pointer};
    }
    CountedAll(issues, start, total);
  }

  method HostOperations(rows: seq<VMRow>, k: KernelPart, hostCount: u64, attributed: u64, sums: Operations)
    returns (operations: Operations)
    requires AreSums(sums, rows)
    ensures HostOperationsOf(rows, k, hostCount, attributed, operations)
  {
    operations := sums;
    var kernelTotal := Wrap(SumOf(k.hostOperations));
    if kernelTotal > 0 {
      operations := k.hostOperations;
    }
    if hostCount > attributed {
      if kernelTotal == 0 {
        operations := operations.(unknownOps := SaturatingAdd(operations.unknownOps, hostCount - attributed));
      }
    }
  }

  lemma NextSum(rows: seq<VMRow>, i: nat, op: Operation)
    requires i < |rows|
    ensures Wrap(Wrap(OperationSum(rows[..i], op)) as int + OperationField(rows[i].operations, op))
            == Wrap(OperationSum(rows[..i + 1], op))
  {
    assert rows[..i + 1][..i] == rows[..i];
    WrapAdd(OperationSum(rows[..i], op), OperationField(rows[i].operations, op));
  }

  /** Adds one row's operation counters. */
  method AddRow(o: Operations, rows: seq<VMRow>, i: nat) returns (r: Operations)
    requires i < |rows| && AreSums(o, rows[..i])
    ensures AreSums(r, rows[..i + 1])
  {
    var row := rows[i].operations;
    NextSum(rows, i, Read);
    NextSum(rows, i, Write);
    NextSum(rows, i, Flush);
    NextSum(rows, i, Discard);
    NextSum(rows, i, Unknown);
    r := Operations(
      Wrap(o.readOps as int + row.readOps), Wrap(o.writeOps as int + row.writeOps),
      Wrap(o.flushOps as int + row.flushOps), Wrap(o.discardOps as int + row.discardOps),
      Wrap(o.unknownOps as int + row.unknownOps));
  }

  /** The sums over the VM rows. */
  method AddRows(rows: seq<VMRow>) returns (operations: Operations, attributed: u64, matched: nat)
    ensures AreSums(operations, rows)
    ensures attributed == Min(TotalSum(rows), MAX_U64) && matched == Matched(rows)
  {
    operations, attributed, matched := NO_OPERATIONS, 0, 0;
    for i := 0 to |rows|
      invariant AreSums(operations, rows[..i])
      invariant attributed == Min(TotalSum(rows[..i]), MAX_U64) && matched == Matched(rows[..i])
    {
      assert rows[..i + 1][..i] == rows[..i];
      operations := AddRow(operations, rows, i);
      attributed := SaturatingAdd(attributed, rows[i].totalOps);
      if rows[i].totalOps > 0 {
        matched := matched + 1;
      }
    }
    assert rows[..|rows|] == rows;
  }
}
