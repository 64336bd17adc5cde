# Block-latency evidence: a verified model

This project models the parts of the repository that turn block-device events on a
virtualisation host into evidence: the hand-written eBPF programs and their assembler,
the per-VM latency aggregator and its histogram, the collection lifecycle, the
storage-graph search, and five smaller cores (remote quoting, the `monitor` command,
suspect ranking, counter deltas, snapshot rewriting). Each imperative piece is a class or
a method proved against a specification function; the theorems are about those functions,
over every input, every event sequence or every run.

| file | what it models |
|---|---|
| `Words.dfy`, `Logs.dfy`, `Sorting.dfy` | fixed-width integers; measures over plain lists; string order, sorting, prefixes and trimming |
| `Bpf.dfy` | the BPF instructions the programs use (RFC 9669, sections 3.1, 3.2, 4.1, 4.3, 5.1, 5.3 and 5.4) with a small-step interpreter |
| `Assembler.dfy` | the instruction builder, and that patched code simulates labelled code |
| `LatencyPrograms.dfy`, `LatencyExecution.dfy` | the issue and completion programs, and what running their bytecode does |
| `LatencyRuns.dfy`, `CounterRuns.dfy` | interleaved runs on any number of CPUs, reading the cells back, and the count-only program |
| `Labels.dfy`, `LatencyLabels.dfy`, `HistogramSummary.dfy` | reading the range that a bucket's label spells, and that both histograms and their published figures agree with it |
| `Histogram.dfy` | the bounded histogram, percentiles, and merging kernel and per-CPU values |
| `CgroupIndex.dfy`, `Devices.dfy`, `Aggregator.dfy` | the cgroup index, device numbers and the sorted device listing, and the event aggregator with its report |
| `RawEvents.dfy` | what events do by their texts, as they are delivered |
| `EventLog.dfy`, `Attribution.dfy`, `Report.dfy`, `PublishedReport.dfy`, `KernelReport.dfy` | what an event list and the kernel's statistics say by themselves, and that the aggregator and its report agree |
| `StageErrors.dfy`, `Lifecycle.dfy` | error trees and the collection protocol |
| `StorageGraph.dfy` | the search for the physical devices below a block device |
| `RemoteArgs.dfy`, `MonitorCommand.dfy`, `Discovery.dfy`, `CounterDelta.dfy`, `Snapshot.dfy` | the smaller cores |

Conventions that hold throughout:

- 64-bit counters are integers below 2^64; wrap-around and saturation are written out
  where the code has them. Durations and file descriptors are unbounded integers.
- Floating-point values are reals: percentages, rates, ranks and milliseconds are exact.
- BPF pointers are symbolic (an object and an offset); a program run is one atomic step;
  the context and the per-CPU cells are bytes
  in the byte order of the host, little or big; least-recently-used eviction
  is an event that may drop any entry at any time.
- Lower-casing a text, by the language's library, is a given function (`Config.lower`).
- Text the programs only print (messages, captions) is kept as a name or left out.
- Where a helper that the source writes inline is a method of its own here (the `Emit...`
  methods of the program builders, `AddCpu`, `AddMissing`), its contract says exactly what
  the inlined statements do.

Findings where a property holds only under a condition, with the exact condition proved:

- The issue ledger balances with a device filter exactly when as many issues replace a
  filtered request as filtered issues replace a stored one (`EventLog.FilteredLedger`). An
  issue for another device than the filter's keeps the balance exactly when no unfiltered
  request is pending for its pointer (`EventLog.FilteredReissue`); two issues are enough to
  lose one (`EventLog.TwoIssuesLoseOne`).
- A session releases every link exactly when no start obtains a link while one is held and
  none succeeds after a stop (`Lifecycle.ClosedRunLeaksNothing`); the collection driver only
  makes safe calls.
- The two report percentages sum to 100 exactly when their denominator does not wrap
  (`Report.PercentagesComplete`; it wraps in `Report.DenominatorCanWrap`), and the
  attribution-mode sum holds exactly when it does not saturate
  (`Report.AttributionModeConserves`; it saturates in `Report.SumCanSaturate`).
- The quality label agrees with the reported percentage exactly when the attributed and
  unattributed operations do not sum to 2^64 (`Report.QualityAgrees`); when they do, the
  label is unavailable beside a percentage of zero (`Report.LabelAtLimit`; it happens in
  `Report.LabelCanDisagree`).
- With nothing selected, a candidate is still marked high exactly when its name is empty
  (`Discovery.HighStandsFirst`; it happens in `Discovery.EmptyNameIsSelected`).
- `monitor` accepts nothing when `--application` is given (`MonitorCommand.ApplicationTwiceFails`).

## Model

| member | source | states |
|---|---|---|
| Assembler.InstructionBuilder.Emit | internal/ebpf/latency.go:331-338 | appends one instruction, register bytes combined as destination or source shifted by four, and touches neither labels nor fixups |
| Bpf.RegisterNibbles | internal/ebpf/latency.go:331-338 | the register byte holds the destination in its low and the source in its high four bits |
| Assembler.InstructionBuilder.LoadMap | internal/ebpf/latency.go:341-344 | appends the two slots of a 64-bit map load |
| Assembler.InstructionBuilder.Jump | internal/ebpf/latency.go:383-386 | appends a jump with offset 0 and records a fixup at its own address |
| Assembler.InstructionBuilder.Label | internal/ebpf/latency.go:389-391 | binds the name to the next address, overriding an earlier binding |
| Assembler.InstructionBuilder.Finalize | internal/ebpf/latency.go:394-407 | succeeds exactly when every fixup resolves; otherwise blames the first that does not, with only the earlier ones patched |
| Assembler.PatchedAt | internal/ebpf/latency.go:394-407 | patching changes no instruction but the recorded jumps, and of those only the offset |
| Assembler.AssembledIsWellFormed | internal/ebpf/latency.go:383-391 | whatever is called, fixups stand at increasing addresses inside the code |
| Assembler.FinalizeSucceedsWhen | internal/ebpf/latency.go:383-407 | finalize succeeds if and only if every jump call names a label some call defines, whose last definition is within a signed 16-bit offset |
| Assembler.BlameSays | internal/ebpf/latency.go:394-405 | a jump that cannot be resolved is blamed on a missing label exactly when no call defines its name, and otherwise on its distance |
| Assembler.DefinedIsLabelled | internal/ebpf/latency.go:389-391 | a name's address is that of its last definition, counted over the calls |
| Assembler.StepSimulates | internal/ebpf/latency.go:394-407 | for every assembly that resolves, one step of the patched code equals one step of the labelled code, from every state |
| Assembler.PatchedRunsLikeLabelled | internal/ebpf/latency.go:394-407 | running the patched flat code equals running the labelled code, for every assembly that resolves, start state and number of steps |
| Assembler.JumpsAreBranches | internal/ebpf/latency.go:383-386 | when every jump call carries a branch opcode with zeros in its reserved fields, every recorded jump is a branch, which the labelled code takes straight to its label |
| LatencyPrograms.IssueLatencyProgram | internal/ebpf/latency.go:245-264 | fails exactly on a field size other than 1, 2, 4 or 8; otherwise the builder calls give the fixed issue code |
| LatencyPrograms.CompleteLatencyProgram | internal/ebpf/latency.go:267-322 | fails exactly on an unsupported field size; otherwise every jump resolves and the patched code is the completion code |
| LatencyPrograms.LoadContextKey | internal/ebpf/latency.go:347-364 | emits loads of each field's own width into the 16-byte stack key |
| LatencyPrograms.SupportedIsLoadable | internal/ebpf/latency.go:367-380 | a field size is supported exactly when the instruction set has a load of that width, and its load is the one emitted |
| LatencyPrograms.CompleteResolves | internal/ebpf/latency.go:282-322 | all 23 jumps of the completion program name a defined label in range |
| LatencyExecution.OneBucket | internal/ebpf/latency.go:37-48 | every latency is in exactly one of the ten buckets |
| LatencyExecution.SameKey | internal/ebpf/latency.go:347-364 | two records give the same key exactly when the bytes of both fields agree, each field read in the host's byte order |
| LatencyExecution.IssueIsCorrect | internal/ebpf/latency.go:245-264 | for every context, map state and clock, the issue bytecode halts with r0 = 0 having set its key to the clock and nothing else |
| LatencyExecution.CompleteIsCorrect | internal/ebpf/latency.go:267-322 | for every context, map state and clock, the completion bytecode halts with r0 = 0; an absent key changes nothing; a present one is removed and, if the cell exists, count, total, maximum and exactly one bucket record the latency mod 2^64 |
| LatencyRuns.RunAllIsEffectAll | internal/ebpf/latency.go:245-322 | running bytecode for every event of any interleaving equals applying the programs' effects |
| LatencyRuns.RunsAgreeWithLog | internal/ebpf/latency.go:245-322 | after any interleaving on any number of CPUs, evictions included, the map holds exactly the latest unconsumed issues and the cells account for exactly the measured latencies |
| LatencyRuns.AggregateLatencyStats | internal/ebpf/latency.go:588-608 | fails exactly on a non-positive CPU count or a short buffer; otherwise the result is the wrapped sums and the maximum over all cells, read in the host's byte order |
| LatencyRuns.WordIsAt | internal/ebpf/latency.go:588-607 | a word is read from its own eight bytes, wherever it stands |
| LatencyRuns.DecodeEncode | internal/ebpf/latency.go:588-607 | in either byte order, reading the cells' bytes back gives the cells |
| LatencyRuns.MeasurementIsLog | internal/ebpf/latency.go:245-322 | the folded result of any run summarises the log: count, total and buckets mod 2^64, maximum exactly |
| LatencyRuns.SummaryIsExact | internal/ebpf/latency.go:588-608 | without overflow the histogram sums to the completed requests, and count and total are exact |
| LatencyLabels.LabelOfLatency | internal/ebpf/latency.go:37-60 | for every latency, the one bucket it is counted in is the one whose label spells a range that holds it |
| LatencyLabels.CompletionGrowsLabel | internal/ebpf/latency.go:267-322 | running the completion bytecode for a pending request removes its entry and, in the CPU's cell, adds to count, total and maximum and to exactly the bucket whose label covers the latency |
| LatencyLabels.ResultByLabel | internal/ebpf/latency.go:588-608 | a result counts under each label, mod 2^64, the measured latencies that the label covers |
| LatencyLabels.LatencyHistogram | internal/ebpf/output.go:81-95 | the buckets with their labels, counts, and counts as hundredths of the completed requests |
| CounterRuns.CounterIsCorrect | internal/ebpf/count.go:198-212 | the counter bytecode halts with r0 = 0 having atomically added one, mod 2^64, to its own cell only |
| CounterRuns.WindowCount | internal/ebpf/count.go:198-301 | after any interleaving of counter programs the reported difference is the number of runs for that key, or 0 exactly when the counter wrapped |
| Words.SaturatingAdd | internal/ebpf/vm_kernel_cilium.go:912-917 | is min(sum, 2^64 - 1) |
| Histogram.BoundedHistogram.Observe | internal/ebpf/vm_latency_histogram.go:53-72 | the new contents, with one bucket found by the strict upper bounds |
| Histogram.BucketOf | internal/ebpf/vm_latency_histogram.go:10-25 | the latency lies between the bucket's lower limit, inclusive, and its upper limit, exclusive |
| Histogram.BoundedHistogram.MergeKernel | internal/ebpf/vm_latency_histogram.go:75-90 | the new contents; an empty value changes nothing |
| Histogram.BoundedHistogram.Percentile | internal/ebpf/vm_latency_histogram.go:106-126 | the bound of the first bucket whose running 64-bit total reaches the rank |
| Histogram.BoundedHistogram.Summary | internal/ebpf/vm_latency_histogram.go:93-103 | the six figures of the contents |
| Histogram.BoundedHistogram.PublicBuckets | internal/ebpf/vm_latency_histogram.go:129-141 | the buckets with their labels, counts and shares |
| Histogram.FromLogDescribes | internal/ebpf/vm_latency_histogram.go:53-72 | after fewer than 2^64 observations: exact count, minimum and maximum, the total clamped at 2^64 - 1, and each bucket counting exactly its latencies |
| Histogram.MergeIsAppend | internal/ebpf/vm_latency_histogram.go:75-90 | merging the aggregate of ys into the histogram of xs equals observing xs followed by ys |
| Histogram.MergePerCpuLatency | internal/ebpf/vm_kernel_cilium.go:856-877 | the fold of the values; a minimum is taken only from a nonempty value |
| Histogram.PerCpuOrder | internal/ebpf/vm_kernel_cilium.go:856-877 | every ordering of the per-CPU values gives the same result |
| Histogram.PerCpuIsLog | internal/ebpf/vm_kernel_cilium.go:856-877 | values that aggregate logs merge into the aggregate of all the logs |
| Histogram.PercentileBrackets | internal/ebpf/vm_latency_histogram.go:106-126 | the exact nearest-rank element lies in the picked bucket: strictly below the returned bound, or at most the returned true maximum for the last bucket |
| Histogram.PercentilesIncrease | internal/ebpf/vm_latency_histogram.go:93-126 | estimates grow with the percentile, from the minimum on |
| Histogram.AverageBetween | internal/ebpf/vm_latency_histogram.go:53-72 | count * min <= total <= count * max while the total is unsaturated |
| Histogram.SummaryOrdered | internal/ebpf/vm_latency_histogram.go:93-103 | min <= average <= max and min <= p50 <= p95 <= p99 |
| Histogram.BucketsComplete | internal/ebpf/vm_latency_histogram.go:129-141 | the bucket counts add up to the count and the shares to 100 |
| HistogramSummary.LabelOfLatency | internal/ebpf/vm_latency_histogram.go:10-43 | for every latency, its bucket is the first whose label spells a range that holds it |
| HistogramSummary.BucketsByLabel | internal/ebpf/vm_latency_histogram.go:129-141 | each published bucket counts the latencies whose first label is its own, and shows their share |
| HistogramSummary.SummaryOfLog | internal/ebpf/vm_latency_histogram.go:93-126 | for every list: a million times the published extremes are the list's, a million times the average is the clamped sum over the count, and p50, p95 and p99 end the label of the latency of rank n/2, 95n/100 and 99n/100, rounded up |
| HistogramSummary.EmptySummary | internal/ebpf/vm_latency_histogram.go:93-110 | without latencies every figure is zero |
| CgroupIndex.IndexVMCgroupMappings | internal/ebpf/vm_cgroup.go:210-226 | fails exactly when two names claim one nonzero ID, with a real conflict; otherwise each ID maps to its last owner and no other ID is present |
| CgroupIndex.IndexNamesOwner | internal/ebpf/vm_cgroup.go:210-226 | whichever owner comes last, the index leads to the owner's name |
| Aggregator.VMBlockEventAggregator.Consume | internal/ebpf/vm_latency_aggregate.go:192-202 | one event, its kind trimmed and lower-cased, takes the contents to the specified next state and leaves the kernel part alone |
| Aggregator.VMBlockEventAggregator.RecordIssue | internal/ebpf/vm_latency_aggregate.go:205-245 | as above, for an issue, its device trimmed and its operation normalised |
| Aggregator.VMBlockEventAggregator.RecordComplete | internal/ebpf/vm_latency_aggregate.go:248-302 | as above, for a completion |
| Aggregator.VMBlockEventAggregator.RecordKernelStats | internal/ebpf/vm_latency_aggregate.go:305-345 | merges every kernel aggregate, copies mode, method and kernel counters, and adds the losses, saturating but for two |
| Aggregator.VMBlockEventAggregator.RecordKernelCgroupOperation | internal/ebpf/vm_latency_aggregate.go:348-389 | merges one kernel value into its VM under its device number and operation, or counts it as unmapped |
| Aggregator.VMBlockEventAggregator.Finish | internal/ebpf/vm_latency_aggregate.go:392-479 | the report, in terms of sums over the VMs and the number of pending requests, with the sorted devices and device listings of every VM and of the host |
| Aggregator.CountWaiting | internal/ebpf/vm_latency_aggregate.go:393-397 | counts the unfiltered pending requests, in any order of the map |
| RawEvents.SpellsOne | internal/ebpf/vm_latency_aggregate.go:686-700 | every text names exactly one operation, by the eight words and letters |
| RawEvents.IssueIsStored | internal/ebpf/vm_latency_aggregate.go:192-245 | an acceptable event whose text says issue leaves its pointer pending with its time, cgroup, device and named operation, and for a new pointer changes nothing else |
| RawEvents.IssueIsFiltered | internal/ebpf/vm_latency_aggregate.go:211-214 | an issue for another device leaves only a mark |
| RawEvents.IssueIsRefused | internal/ebpf/vm_latency_aggregate.go:205-226 | an issue that is not stored counts once, under the first of unsupported, no bio, no cgroup and ambiguous device that it shows |
| RawEvents.ReplacementIsCounted | internal/ebpf/vm_latency_aggregate.go:232-238 | a stored issue over a pending one counts as a reissue when it is marked as one, and as a duplicate otherwise |
| RawEvents.CompletionIsMeasured | internal/ebpf/vm_latency_aggregate.go:248-302 | an event whose text says complete takes a pending request out and adds its latency to the host and to the VM of its cgroup, under its device, in the counter of the operation its text names, or counts it as unmapped |
| RawEvents.CompletionIsLost | internal/ebpf/vm_latency_aggregate.go:248-266 | a completion of an unknown, filtered or later-issued request measures nothing and counts as missed, not at all, or unsupported |
| RawEvents.OtherIsUnsupported | internal/ebpf/vm_latency_aggregate.go:198-200 | an event of any other text only counts as unsupported |
| RawEvents.RequestIsCounted | internal/ebpf/vm_latency_aggregate.go:192-302 | a new request issued and completed leaves the pending ones as they were, and its texts decide where its latency counts |
| RawEvents.RawRunIsRun | internal/ebpf/vm_latency_aggregate.go:192-302 | a run of events as delivered is the run of the normalised events, so every result on runs holds of it |
| EventLog.IssuesArePending | internal/ebpf/vm_latency_aggregate.go:205-255 | after any events the pending map holds, for each request, the latest admitted issue with no later completion, found by looking backwards |
| EventLog.CountersAreTallies | internal/ebpf/vm_latency_aggregate.go:192-302 | after any events every loss counter is, mod 2^64, the number of events with that fate |
| EventLog.EveryEventCounted | internal/ebpf/vm_latency_aggregate.go:192-302 | every event has exactly one fate |
| EventLog.PendingBalance | internal/ebpf/vm_latency_aggregate.go:205-302 | entered = completed + replaced + pending, with and without a filter |
| EventLog.Ledger | internal/ebpf/vm_latency_aggregate.go:192-302 | with no filter: events = UnsupportedRequest + MissingBio + MissingBlkcg + StackedDeviceAmbiguous + stored issues + LookupMiss + host count, and stored issues = matched completions + DuplicateIssue + RequeueOrReissue + pending |
| EventLog.FilteredLedger | internal/ebpf/vm_latency_aggregate.go:211-239 | with any filter the stored issues balance if and only if issues over filtered requests are as many as filtered issues over stored ones |
| EventLog.FilterLosesRequest | internal/ebpf/vm_latency_aggregate.go:211-214 | a filtered issue over a waiting request breaks a balance that held |
| EventLog.FilteredReissue | internal/ebpf/vm_latency_aggregate.go:211-214 | after any events that balance, an issue for another device than the filter's keeps the balance if and only if no unfiltered request is pending for its pointer |
| EventLog.TwoIssuesLoseOne | internal/ebpf/vm_latency_aggregate.go:211-214 | any storable issue, issued again for another device, is lost uncounted |
| EventLog.AttributionIsLog | internal/ebpf/vm_latency_aggregate.go:248-302 | after any events, the host, each VM, and each VM's (device, operation) histogram is the histogram of exactly the completed requests that belong to it, the operation counters count them, and the VM's devices are theirs |
| Attribution.HostIsSumOfVMs | internal/ebpf/vm_latency_aggregate.go:248-302 | host count = sum of VM counts + UnmappedCgroup, and the same in every bucket |
| Attribution.OperationsAddUp | internal/ebpf/vm_latency_aggregate.go:290-301 | a VM's five operation counters add up to its count |
| Attribution.DevicesAddUp | internal/ebpf/vm_latency_aggregate.go:280-289 | a VM's per-(device, operation) histograms add up to its histogram in every bucket |
| Report.AttributedToOwner | internal/ebpf/vm_cgroup.go:210-226 | a request is attributed to the last mapping that owns its cgroup and to no other |
| Report.EventPathOperations | internal/ebpf/vm_latency_aggregate.go:423-449 | after any events and kernel statistics without values, the five host operation counts sum to the host total |
| Report.EventPathCoverage | internal/ebpf/vm_latency_aggregate.go:452-479 | with no filter, outside attribution mode and with kernel statistics without values, attributed + unattributed + completions + counted replacements = events |
| Report.PendingReported | internal/ebpf/vm_latency_aggregate.go:393-397 | after any events and kernel statistics without values, all pending requests are reported as incomplete, exactly |
| Report.SilentChangesNothing | internal/ebpf/vm_latency_aggregate.go:305-345 | kernel statistics without values leave the aggregated state as it is |
| Report.ListingAddsUp | internal/ebpf/vm_latency_aggregate.go:703-719 | the lines of a VM's device listing add up to its histogram in every bucket |
| Report.AttributionModeConserves | internal/ebpf/vm_latency_aggregate.go:453-458 | attributed + unattributed = max(host, attributed) + LookupMiss + IncompleteAtWindowEnd, if and only if nothing saturates |
| Report.SumCanSaturate | internal/ebpf/vm_latency_aggregate.go:453-458 | a full host count and one lookup miss saturate the sum |
| Report.PercentagesComplete | internal/ebpf/vm_latency_aggregate.go:462-478 | with a positive denominator the percentages sum to 100 if and only if it did not wrap |
| Report.DenominatorCanWrap | internal/ebpf/vm_latency_aggregate.go:462-478 | a full VM and two lookup misses wrap it, and the percentages exceed 100 |
| Report.QualityAgrees | internal/ebpf/vm_latency_aggregate.go:753-769 | the label follows from the reported percentage (up to 5 available, up to 25 degraded, and unavailable with no attributed VM) if and only if attributed + unattributed is not 2^64 |
| Report.LabelAtLimit | internal/ebpf/vm_latency_aggregate.go:753-769 | at 2^64 the label is unavailable although a VM is attributed and the reported percentages are zero |
| Report.LabelCanDisagree | internal/ebpf/vm_latency_aggregate.go:753-769 | a full VM and one lookup miss reach 2^64: the label is unavailable at 0 percent |
| Report.KernelIsLog | internal/ebpf/vm_latency_aggregate.go:348-389 | kernel values that aggregate logs give each VM the aggregate of its logs, with operation counters adding up |
| Report.HostListingIsLog | internal/ebpf/vm_latency_aggregate.go:315-326 | the host's listing has a line for exactly the devices and operations with a kernel value, each the aggregate of the logs behind its values |
| PublishedReport.ReportIsLog | internal/ebpf/vm_latency_aggregate.go:192-479 | after any events and kernel statistics without values, every published row shows exactly the completed requests of its VM (count, histogram, operations, devices, one line per device and operation), the host all of them, and the matched VMs are those with any |
| KernelReport.LossesAreReported | internal/ebpf/vm_latency_aggregate.go:305-397 | after any events and any kernel statistics every loss of the report is the events' tally and the kernel's counter, clamped; the pending requests are counted on top; drops, map-full and metadata losses are the kernel's |
| KernelReport.TotalIsReported | internal/ebpf/vm_latency_aggregate.go:452-461 | the unattributed total in either mode, from the losses of the same report |
| KernelReport.KernelOperationsAreLogs | internal/ebpf/vm_latency_aggregate.go:348-389 | each of a VM's operation counters counts the requests behind the kernel values whose text names the operation |
| KernelReport.KernelDevicesAreLogs | internal/ebpf/vm_latency_aggregate.go:368-377 | each of a VM's device histograms aggregates the logs behind its kernel values, and there is one exactly when they hold a request |
| KernelReport.KernelNamesAreListed | internal/ebpf/vm_latency_aggregate.go:366-369 | a VM's devices are those of its kernel values that hold a request |
| KernelReport.HostIsBoth | internal/ebpf/vm_latency_aggregate.go:313-314 | the host's histogram aggregates the events' latencies and the kernel's |
| KernelReport.KernelPartIsReported | internal/ebpf/vm_latency_aggregate.go:305-314 | mode, method, counters and host operations of the report are the kernel's where it gives any |
| KernelReport.RowLabels | internal/ebpf/vm_latency_aggregate.go:399-422 | a row is a partial collection exactly when it has requests and the collection failed, and without attributed events exactly when it has none and the collection succeeded |
| Devices.DeviceOperationSummaries | internal/ebpf/vm_latency_aggregate.go:703-719 | one line for each entry, in increasing order of device and operation |
| Devices.ListingUnique | internal/ebpf/vm_latency_aggregate.go:703-735 | a map has exactly one such listing |
| Devices.DeviceNumberInjective | internal/ebpf/vm_latency_aggregate.go:316-319 | different device numbers are listed under different names |
| Devices.DeviceNumberReads | internal/ebpf/vm_latency_aggregate.go:316-319 | a device number shows major and minor in decimal around a colon |
| StageErrors.Visit | internal/ebpf/vm_latency_aggregate.go:645-668 | appends the outermost stage errors of the tree, in order |
| StageErrors.PrimaryStageError | internal/ebpf/vm_latency_aggregate.go:631-642 | the first stage error that is not a cleanup failure, otherwise the first |
| StageErrors.JoinStages | internal/ebpf/vm_latency_aggregate.go:659-664 | the stage errors of a join are the in-order concatenation of its parts', absent parts dropped |
| StageErrors.PrimaryOfConcat | internal/ebpf/vm_latency_aggregate.go:631-642 | the first part with a cause decides |
| StageErrors.ClassifiedCause | internal/ebpf/vm_kernel_source.go:279-297 | a classified failure names a stage; it has a cause unless it named only cleanup failures itself |
| StageErrors.ClassifyCleanup | internal/ebpf/vm_kernel_source.go:300-310 | a failure that names a cleanup stage is returned unchanged, any other is wrapped in one, and no failure stays none |
| StageErrors.UnstagedError | internal/ebpf/vm_latency_aggregate.go:612-628 | a failure that names no stage is reported by the kinds anywhere in its tree, a verifier rejection first |
| Lifecycle.CiliumSession.Start | internal/ebpf/vm_kernel_cilium.go:391-419 | both links or none are kept; a failed second attach closes the first |
| Lifecycle.CiliumSession.Collect | internal/ebpf/vm_kernel_cilium.go:422-455 | stops, then reads the maps only if stopping reported nothing |
| Lifecycle.CiliumSession.Stop | internal/ebpf/vm_kernel_cilium.go:461-472 | closes the held links the first time, and always returns the first result |
| Lifecycle.CiliumSession.Close | internal/ebpf/vm_kernel_cilium.go:475-485 | stops and closes the resources the first time, and always returns the first result |
| Lifecycle.RunKernelSource | internal/ebpf/vm_kernel_source.go:236-275 | which calls a collection makes on its session, the failure it reports (a failed prepare's own), and exactly when the statistics it returns are attributed, host-only or none |
| Lifecycle.CallKeeps | internal/ebpf/vm_kernel_cilium.go:391-495 | every call keeps the session consistent, whatever step fails or is cancelled |
| Lifecycle.ClosedAtMostOnce | internal/ebpf/vm_kernel_cilium.go:391-495 | in any run no link is closed twice or without being obtained, and the resources are closed exactly once if closing is called |
| Lifecycle.ClosedRunLeaksNothing | internal/ebpf/vm_kernel_cilium.go:391-495 | a run that ends by closing has closed every obtained link exactly once if and only if all its starts were safe |
| Lifecycle.RepeatedCalls | internal/ebpf/vm_kernel_cilium.go:461-485 | repeated stops and closes return the first result and change nothing, whatever happens between |
| Lifecycle.FirstStop | internal/ebpf/vm_kernel_cilium.go:461-472 | the first stop fails exactly when closing a held link does, and closes the issue link first |
| Lifecycle.FirstClose | internal/ebpf/vm_kernel_cilium.go:475-485 | the first close fails exactly when stopping or releasing the resources does |
| Lifecycle.FirstIsRepeated | internal/ebpf/vm_kernel_cilium.go:461-485 | after a first stop or close, whatever is called between, another returns its result and changes nothing |
| Lifecycle.ReadAfterDetach | internal/ebpf/vm_kernel_cilium.go:422-438 | in any safe run the maps are read only with every link closed |
| Lifecycle.ReadAfterCleanStop | internal/ebpf/vm_kernel_cilium.go:431-434 | in any run a read implies a stop without error |
| Lifecycle.CollectionReleasesEverything | internal/ebpf/vm_kernel_source.go:258-275 | one collection, whatever fails, closes each obtained link exactly once and the resources exactly once |
| Lifecycle.CollectionReadsDetached | internal/ebpf/vm_kernel_source.go:258-275 | one collection reads the maps only after both links were obtained and detached without error |
| Lifecycle.SourceStats | internal/ebpf/vm_kernel_cilium.go:434-454 | the statistics are attributed exactly when both programs attached, nothing cancelled, both detached without error and the read succeeded, and host-only exactly when all but the read did |
| Lifecycle.CauseIsReported | internal/ebpf/vm_kernel_source.go:258-275 | when start or collect fails with a cause, the reported stage is that cause's, whatever stop and close return |
| Lifecycle.ReportedStage | internal/ebpf/vm_kernel_source.go:258-275 | for every choice of failing or cancelled steps, the stage that is reported, in closed form; nothing is reported exactly when nothing fails |
| Lifecycle.ReportedError | internal/ebpf/vm_kernel_source.go:258-310 | for every choice of failing or cancelled steps, the error that is reported: its status, stage, operation and cause |
| Sorting.SortedUnique | internal/hoststorage/resolver.go:278-291 | the strictly increasing list of the trimmed values, without blanks and dashes |
| Sorting.TrimIsMiddle | internal/hoststorage/resolver.go:278-291 | a trimmed text is what stands between the white space at both ends |
| Sorting.IncreasingUnique | internal/hoststorage/resolver.go:278-291 | a set has one strictly increasing list |
| StorageGraph.TerminalSlaves | internal/hoststorage/resolver.go:174-193 | visits new devices only, closed under slaves, and lists the accepted ones among them; ends on every graph |
| StorageGraph.PhysicalDisksFor | internal/hoststorage/resolver.go:196-218 | the same with partitions leading to their disk and virtual devices not accepted |
| StorageGraph.AcceptsByName | internal/hoststorage/resolver.go:174-218 | what ends a search, by the first letters of the name: dm- for both, and loop, ram and zram for disks |
| StorageGraph.WholeSearch | internal/hoststorage/resolver.go:174-218 | from an empty visited set, exactly the reachable devices are visited although siblings share the set |
| StorageGraph.ResolveSysfsTopology | internal/hoststorage/resolver.go:124-137 | the increasing list of the accepted reachable devices, for both searches, and nothing without a kernel name |
| StorageGraph.ExactlyTheReachable | internal/hoststorage/resolver.go:174-218 | with ordinary device names the list is exactly the accepted reachable devices, and the only such list |
| StorageGraph.RestsOnSlaves | internal/hoststorage/resolver.go:174-218 | in any graph a device on top of others rests on exactly what those rest on |
| StorageGraph.PartitionRestsOnDisk | internal/hoststorage/resolver.go:196-218 | a partition with nothing below it rests on the disks of its disk |
| StorageGraph.WholeDiskIsItself | internal/hoststorage/resolver.go:174-218 | any other device with nothing below it stands for itself, unless its name is virtual |
| RemoteArgs.JoinRemoteArgs | internal/guest/ssh.go:89-98 | the line of the quoted arguments |
| RemoteArgs.QuotingRoundTrip | internal/guest/ssh.go:89-98 | tokenizing the line by the POSIX Shell Command Language, sections 2.2.2, 2.2.3 and 2.3, yields exactly the arguments if and only if none holds a NUL |
| RemoteArgs.QuotingInjective | internal/guest/ssh.go:89-98 | different argument lists give different lines |
| RemoteArgs.BoundedBuffer.Write | internal/guest/ssh.go:110-120 | the buffer holds the first bytes of everything written, up to the limit, and says exactly when there was more |
| RemoteArgs.KeptIsBeginning | internal/guest/ssh.go:110-120 | what is kept is the beginning of what was written: all of it when it fits, and exactly the limit otherwise |
| MonitorCommand.ParseTopArgs | internal/cli/cli.go:879-978 | the options of scanning the arguments over the top defaults |
| MonitorCommand.HasOption | internal/cli/cli.go:470-477 | for any option name, found exactly when some argument gives it, bare or with a value |
| MonitorCommand.ExpandMonitor | internal/cli/cli.go:405-425 | the arguments with the missing defaults appended |
| MonitorCommand.SeenIsGiven | internal/cli/cli.go:879-978 | a successful scan has seen exactly the options that are given |
| MonitorCommand.AcceptedAsGiven | internal/cli/cli.go:879-978 | in accepted arguments every option given is stored as its text says, every other keeps its default, and the options agree |
| MonitorCommand.WrittenIsAccepted | internal/cli/cli.go:879-978 | any different options with usable values are accepted, unless the interval exceeds the duration or both screen switches are given |
| MonitorCommand.NothingGiven | internal/cli/cli.go:405-425 | the options of `top` and of `monitor` without arguments |
| MonitorCommand.ScanAppend | internal/cli/cli.go:879-978 | arguments followed by an option scan as they do alone, malformed and trailing ones included |
| MonitorCommand.MonitorIsTopWithDefaults | internal/cli/cli.go:405-425 | without --application, parsing the expansion succeeds with options o exactly when scanning the arguments over the changed defaults does |
| MonitorCommand.ApplicationTwiceFails | internal/cli/cli.go:410-412 | with --application given, the expansion is never accepted |
| Discovery.RankedCandidates | internal/discovery/model.go:210-230 | the eligible candidates, ranked |
| Discovery.CompetingRate | internal/discovery/model.go:233-247 | the highest rate of the victim and the other available candidates |
| Discovery.SelectCandidate | internal/discovery/model.go:173-205 | the dominating first of the ranking by bytes, or by system calls when nobody writes a meaningful rate |
| Discovery.Analyze | internal/discovery/model.go:111-169 | the ranked, scored candidates and the selected one |
| Discovery.AnalysisIsPermutation | internal/discovery/model.go:111-161 | the report lists every candidate once, in rank order |
| Discovery.RankingOrder | internal/discovery/model.go:210-230 | the eligible candidates stand by their average, then their peak, then their name |
| Discovery.AnalysisCanonical | internal/discovery/model.go:111-247 | with distinct names the report is the same for every input order |
| Discovery.HighStandsFirst | internal/discovery/model.go:133-169 | a candidate is high if and only if it stands first and is the selected one |
| Discovery.EmptyNameIsSelected | internal/discovery/model.go:133-169 | an unavailable target with an empty name is high and reported as selected although nothing is selected |
| Discovery.SelectedIsJustified | internal/discovery/model.go:173-205 | a candidate is reported as selected if and only if one has the highest rate of its kind among the eligible and outdoes the victim and every other available candidate by the ratio (or all of those are near zero); system calls decide only when no candidate is byte-meaningful |
| Discovery.JustifiedIsSelected | internal/discovery/model.go:173-205 | whenever a candidate has the highest rate and outdoes its rivals, one is selected, by the same metric |
| Discovery.ReportOrder | internal/discovery/model.go:149-161 | high before medium before low, then by byte rate, system-call rate and name |
| Discovery.OthersAreScored | internal/discovery/model.go:133-148 | a candidate that is not selected is medium exactly when it is available and either rate is meaningful |
| Discovery.ReasonsSay | internal/discovery/model.go:124-148 | the reason beside every candidate: the selection's, the first meaningful rate, idle, or why nothing was sampled |
| Discovery.ThresholdsInForce | internal/qemuio/summary.go:386-398 | a configured threshold that cannot be used is replaced by its default |
| CounterDelta.IndexCounters | internal/ebpf/vm_validation.go:305-333 | fails exactly on an invalid or repeated identity; otherwise holds exactly the rows |
| CounterDelta.IdentityIsShown | internal/ebpf/vm_validation.go:286-333 | a cgroup row is joined by its name exactly when that is two numbers below 2^32 around a colon, a virsh row by its trimmed name unless that is blank |
| CounterDelta.ShownIsIdentity | internal/ebpf/vm_validation.go:286-295 | every device number, as it is shown, is an identity |
| CounterDelta.UnionSortedKeys | internal/ebpf/vm_validation.go:336-351 | the strictly increasing list of the keys of either sample |
| CounterDelta.ValidationCounterDelta | internal/ebpf/vm_validation.go:297-302 | before + delta = after, unless the counter went back |
| CounterDelta.DeltaSamples | internal/ebpf/vm_validation.go:82-136 | one row per identity in either sample, strictly increasing; a row is ok exactly when it is in both and no compared counter decreased, and then before + delta = after; all other deltas are zero |
| CounterDelta.IoStatDelta | internal/ebpf/vm_validation.go:96-134 | the difference of two cgroup rows by the names of its six counters: a reset when any compared one went back |
| CounterDelta.BlockStatDelta | internal/ebpf/vm_validation.go:244-279 | the difference of two virsh rows by the names of its eight counters |
| CounterDelta.JoinUnique | internal/ebpf/vm_validation.go:229-283 | two samples have exactly one such list |
| CounterDelta.IndexUnique | internal/ebpf/vm_validation.go:305-333 | the order of a sample's rows does not matter |
| CounterDelta.WindowsAddUp | internal/ebpf/vm_validation.go:82-136 | the deltas of consecutive ok windows add up to the delta of the whole |
| Snapshot.ObserveSnapshot.ApplyEBPFVMAttribution | internal/observe/vm_attribution.go:14-114 | the snapshot's new contents |
| Snapshot.ObserveSnapshot.FinalizeQuality | internal/observe/correlation.go:21-41 | unavailable without a usable base section, partial when something is degraded, measured otherwise |
| Snapshot.RemoveNamed | internal/observe/vm_attribution.go:117-132 | the entries with other names, in order |
| Snapshot.LastReportWins | internal/observe/vm_attribution.go:14-114 | applying one report after another equals applying the last; so applying twice equals applying once |
| Snapshot.UnrelatedSurvive | internal/observe/vm_attribution.go:117-132 | all other entries survive in order |
| Snapshot.ExactlyOneOfEach | internal/observe/correlation.go:95-121 | exactly one attribution section, no legacy one, one of each of the three correlations, and the overall quality recomputed from the sections |
| Snapshot.SectionAgrees | internal/observe/vm_attribution.go:96-110 | the section is measured or partial exactly when the report attributes operations with a usable quality |
| Snapshot.SectionSays | internal/observe/vm_attribution.go:14-114 | the section's state after applying a report, in the report's own fields |
| Snapshot.ProjectionSays | internal/observe/vm_attribution.go:31-95 | figures and VMs are kept exactly when the report attributes operations with a usable quality; the status says why not; the reuse caveat stands exactly for another window |
| Snapshot.CaveatsSay | internal/observe/vm_attribution.go:60-64 | the report's caveats are kept, each as its words with one space between them, and none that is blank |
| Snapshot.FiguresAreTheirs | internal/observe/vm_attribution.go:72-94 | the victim's figures are those of the VM with the victim's name, and the suspect's of the one with the suspect's |
| Snapshot.CorrelationsSay | internal/observe/correlation.go:95-121 | each of the three correlations is present exactly when the report's fields say so |
| Snapshot.OverallByName | internal/observe/correlation.go:21-41 | the overall quality, by the names of the four base sections |

## Left out

- System calls, perf events, program loading, BTF inspection and map creation: attaching, reading and closing are steps whose results are parameters.
- The kernel's verifier, and the internals of least-recently-used eviction: an eviction may drop any entry at any time.
- Interleavings inside one program run: a run is atomic. The latency programs touch only their CPU's cell and one map entry at a time; the counter program's update is one atomic instruction.
- LatencyPrograms.CompleteLatencyProgram: program-load limits and the licence string are not modelled.
- Aggregator.VMBlockEventAggregator.Consume: the lower-casing of letters is a given function; the branch for an empty operation, which the normalisation never yields, does not exist here.
- Aggregator.VMBlockEventAggregator.RecordComplete: the per-VM and per-device histograms, pointers in the source, are values in maps, so aliasing of histograms is not captured.
- Aggregator.VMBlockEventAggregator.Finish: the latency figures and public buckets of a row or a listing line are represented by the histogram they are computed from; mapping caveats and captions are not modelled.
- Lifecycle.RunKernelSource: the clock, the context's machinery and the preflight texts are reduced to their outcomes; the session is the typed-BTF one, not the adapter for event sources in the repository's tests.
- StageErrors.ErrorStage: stage names are taken without surrounding white space.
- StorageGraph.ResolveSysfsTopology: finding the kernel name of a path, and reading the device directories, are inputs.
- MonitorCommand.ParseTopArgs: parsing of durations, booleans and integers, and the table of sort fields, are given functions; error texts are not modelled.
- Discovery.Analyze: which VMs share a disk, and the sampled summary of each (an unavailable one when there is none), are inputs.
- CounterDelta.DeltaSamples: both delta functions are one method over a list of counters, where the source repeats a statement per counter; the last re-sort, of rows already in order, is not repeated.
- Snapshot.ObserveSnapshot.ApplyEBPFVMAttribution: reuse of the backing arrays while filtering is not captured; fixed captions are named instead of spelled out, and fields only copied from the report are one text.
- Floating-point rounding.
- The `investigate` and `bundle` rewritings, the other option scanners, rendering, capture bundles, guest collection over SSH and HTTP, and procfs and sysfs parsing: settled branch by branch, or input and output.
