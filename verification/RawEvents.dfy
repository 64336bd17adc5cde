/** What events do by their texts, as the source delivers them: kinds, operations and
    devices are read here from the texts alone. */
module RawEvents {
  import opened Words
  import opened Sorting
  import opened Histogram
  import opened Devices
  import opened Aggregator

  /** A text is a word, up to surrounding white space and letter case. */
  predicate Says(lower: string -> string, text: string, word: string) {
    lower(Trim(text)) == word
  }

  predicate SaysEither(lower: string -> string, text: string, long: string, short: string) {
    Says(lower, text, long) || Says(lower, text, short)
  }

  /** An issue that is accepted and not filtered out. */
  predicate Storable(c: Config, e: RawEvent) {
    && Says(c.lower, e.kind, "issue") && !e.unsupportedRequest && e.requestPointer != 0 && e.timestampNs != 0
    && (c.filter == "" || Trim(e.device) == c.filter)
    && !e.missingBio && !e.missingBlkcg && e.cgroupId != 0 && !e.stackedDeviceAmbiguous
  }

  /** The operation that a text names. */
  ghost predicate Spells(lower: string -> string, text: string, op: Operation) {
    match op
    case Read => SaysEither(lower, text, "read", "r")
    case Write => SaysEither(lower, text, "write", "w")
    case Flush => SaysEither(lower, text, "flush", "f")
    case Discard => SaysEither(lower, text, "discard", "d")
    case Unknown =>
      && !SaysEither(lower, text, "read", "r") && !SaysEither(lower, text, "write", "w")
      && !SaysEither(lower, text, "flush", "f") && !SaysEither(lower, text, "discard", "d")
  }

  /** A text names exactly one operation. */
  lemma SpellsOne(lower: string -> string, text: string, op: Operation)
    ensures Spells(lower, text, op) <==> op == NormalizeOperation(lower, text)
  {
    var name := lower(Trim(text));
    assert |"read"| == 4 && |"write"| == 5 && |"flush"| == 5 && |"discard"| == 7 && |"r"| == 1;
    assert "write"[0] == 'w' && "flush"[0] == 'f';
    assert "r"[0] == 'r' && "w"[0] == 'w' && "f"[0] == 'f' && "d"[0] == 'd';
  }

  lemma KindOf(lower: string -> string, kind: string)
    ensures Says(lower, kind, "issue") <==> NormalizeKind(lower, kind) == Issue
    ensures Says(lower, kind, "complete") <==> NormalizeKind(lower, kind) == Complete
  {
    assert |"issue"| == 5 && |"complete"| == 8;
  }

  // ----- one event -----

  /** The request that a storable issue describes. */
  ghost predicate Announces(c: Config, e: RawEvent, p: Pending) {
    && p.timestampNs == e.timestampNs && p.cgroupId == e.cgroupId && p.device == Trim(e.device) && !p.filteredOut
    && Spells(c.lower, e.operation, p.operation)
  }

  /** A storable issue makes its request pending; for a new request nothing else changes. */
  lemma IssueIsStored(c: Config, s: State, e: RawEvent)
    requires Storable(c, e)
    ensures var after := AfterRaw(c, s, e);
            && e.requestPointer in after.issues && Announces(c, e, after.issues[e.requestPointer])
            && after == s.(issues := s.issues[e.requestPointer := after.issues[e.requestPointer]], lost := after.lost)
            && (e.requestPointer !in s.issues ==> after.lost == s.lost)
  {
    KindOf(c.lower, e.kind);
    SpellsOne(c.lower, e.operation, NormalizeOperation(c.lower, e.operation));
  }

  /** An issue for another device than the filter's leaves only a mark. */
  lemma IssueIsFiltered(c: Config, s: State, e: RawEvent)
    requires Says(c.lower, e.kind, "issue") && !e.unsupportedRequest && e.requestPointer != 0 && e.timestampNs != 0
    requires c.filter != "" && Trim(e.device) != c.filter
    ensures AfterRaw(c, s, e) == s.(issues := s.issues[e.requestPointer := FILTERED_OUT])
  {
    KindOf(c.lower, e.kind);
  }

  /** An issue that cannot be used. */
  predicate Unusable(e: RawEvent) {
    e.unsupportedRequest || e.requestPointer == 0 || e.timestampNs == 0
  }

  /** The losses with one more request that is refused: unsupported, without a bio, without
      a cgroup, or on an ambiguous device, whichever comes first. */
  function Refused(lost: Unattributed, e: RawEvent): Unattributed {
    if Unusable(e) then lost.(unsupportedRequest := Wrap(lost.unsupportedRequest as int + 1))
    else if e.missingBio then lost.(missingBio := Wrap(lost.missingBio as int + 1))
    else if e.missingBlkcg || e.cgroupId == 0 then lost.(missingBlkcg := Wrap(lost.missingBlkcg as int + 1))
    else lost.(stackedDeviceAmbiguous := Wrap(lost.stackedDeviceAmbiguous as int + 1))
  }

  /** An issue that is not stored is counted as a loss, once. */
  lemma IssueIsRefused(c: Config, s: State, e: RawEvent)
    requires Says(c.lower, e.kind, "issue") && !Storable(c, e)
    requires Unusable(e) || c.filter == "" || Trim(e.device) == c.filter
    ensures AfterRaw(c, s, e) == s.(lost := Refused(s.lost, e))
  {
    KindOf(c.lower, e.kind);
  }

  /** A stored issue over a pending request counts as a reissue when it is marked as one,
      and as a duplicate otherwise. */
  lemma ReplacementIsCounted(c: Config, s: State, e: RawEvent)
    requires Storable(c, e) && e.requestPointer in s.issues
    ensures AfterRaw(c, s, e).lost
            == if e.requeueOrReissue then s.lost.(requeueOrReissue := Wrap(s.lost.requeueOrReissue as int + 1))
               else s.lost.(duplicateIssue := Wrap(s.lost.duplicateIssue as int + 1))
  {
    KindOf(c.lower, e.kind);
  }

  /** A completion that measures nothing: of an unknown request, of a filtered one, or of one
      that was issued later. */
  lemma CompletionIsLost(c: Config, s: State, e: RawEvent)
    requires Says(c.lower, e.kind, "complete")
    ensures e.requestPointer !in s.issues ==>
              AfterRaw(c, s, e) == s.(lost := s.lost.(lookupMiss := Wrap(s.lost.lookupMiss as int + 1)))
    ensures e.requestPointer in s.issues && s.issues[e.requestPointer].filteredOut ==>
              AfterRaw(c, s, e) == s.(issues := s.issues - {e.requestPointer})
    ensures e.requestPointer in s.issues && !s.issues[e.requestPointer].filteredOut
            && e.timestampNs < s.issues[e.requestPointer].timestampNs ==>
              AfterRaw(c, s, e) == s.(issues := s.issues - {e.requestPointer},
                                      lost := s.lost.(unsupportedRequest := Wrap(s.lost.unsupportedRequest as int + 1)))
  {
    KindOf(c.lower, e.kind);
  }

  /** An event of any other kind is an unsupported request. */
  lemma OtherIsUnsupported(c: Config, s: State, e: RawEvent)
    requires !Says(c.lower, e.kind, "issue") && !Says(c.lower, e.kind, "complete")
    ensures AfterRaw(c, s, e) == s.(lost := s.lost.(unsupportedRequest := Wrap(s.lost.unsupportedRequest as int + 1)))
  {
    KindOf(c.lower, e.kind);
    OtherEvent(c, s, Normalized(c.lower, e));
  }

  lemma OtherEvent(c: Config, s: State, e: Event)
    requires e.kind != Issue && e.kind != Complete
    ensures After(c, s, e) == s.(lost := s.lost.(unsupportedRequest := Wrap(s.lost.unsupportedRequest as int + 1)))
  {
  }

  /** Exactly the counter of the operation that the text names grows by one. */
  ghost predicate CountsText(lower: string -> string, before: Operations, after: Operations, text: string) {
    Counts(
      before, after, Spells(lower, text, Read), Spells(lower, text, Write), Spells(lower, text, Flush),
      Spells(lower, text, Discard), Spells(lower, text, Unknown))
  }

  ghost predicate Counts(
    before: Operations, after: Operations, read: bool, write: bool, flush: bool, discard: bool, unknown: bool)
  {
    && after.readOps == Wrap(before.readOps as int + OneWhen(read))
    && after.writeOps == Wrap(before.writeOps as int + OneWhen(write))
    && after.flushOps == Wrap(before.flushOps as int + OneWhen(flush))
    && after.discardOps == Wrap(before.discardOps as int + OneWhen(discard))
    && after.unknownOps == Wrap(before.unknownOps as int + OneWhen(unknown))
  }

  function OneWhen(b: bool): nat {
    if b then 1 else 0
  }

  lemma OnlyOneSpelled(lower: string -> string, text: string, op: Operation, other: Operation)
    requires Spells(lower, text, op)
    ensures Spells(lower, text, other) <==> other == op
  {
    SpellsOne(lower, text, op);
    SpellsOne(lower, text, other);
  }

  lemma CountIsText(lower: string -> string, o: Operations, text: string, op: Operation)
    requires Spells(lower, text, op)
    ensures CountsText(lower, o, CountOperation(o, op), text)
  {
    OnlyOneSpelled(lower, text, op, Read);
    OnlyOneSpelled(lower, text, op, Write);
    OnlyOneSpelled(lower, text, op, Flush);
    OnlyOneSpelled(lower, text, op, Discard);
    OnlyOneSpelled(lower, text, op, Unknown);
    OneIsCounted(o, op);
  }

  lemma OneIsCounted(o: Operations, op: Operation)
    ensures Counts(o, CountOperation(o, op), op == Read, op == Write, op == Flush, op == Discard, op == Unknown)
  {
    OneMoreWhen(o.readOps, op == Read);
    OneMoreWhen(o.writeOps, op == Write);
    OneMoreWhen(o.flushOps, op == Flush);
    OneMoreWhen(o.discardOps, op == Discard);
    OneMoreWhen(o.unknownOps, op == Unknown);
  }

  lemma OneMoreWhen(x: u64, b: bool)
    ensures Wrap(x as int + OneWhen(b)) == if b then Bump(x) else x
  {
    SmallWrap(x);
  }

  /** What a VM gains by one request: a latency, under its device and operation too. */
  ghost predicate Gains(c: Config, before: Accumulator, after: Accumulator, e: RawEvent, latencyNs: u64) {
    && after.latency == Observed(before.latency, latencyNs)
    && CountsText(c.lower, before.operations, after.operations, e.operation)
    && after.devices == before.devices + (if Trim(e.device) != "" then {Trim(e.device)} else {})
    && exists key: DeviceOperation ::
         && Spells(c.lower, e.operation, key.operation) && key.device == (if Trim(e.device) != "" then Trim(e.device) else "-")
         && after.deviceOperations
            == before.deviceOperations[key := Observed(Lookup(before.deviceOperations, key, Empty()), latencyNs)]
  }

  /** The latency of a request belongs to the host, and to the VM that owns its cgroup;
      without one it is counted as unmapped. */
  ghost predicate Measures(c: Config, s: State, after: State, issue: RawEvent, latencyNs: u64) {
    && after.host == Observed(s.host, latencyNs)
    && (if issue.cgroupId in c.index then
          var vm := c.index[issue.cgroupId];
          && after.lost == s.lost && vm in after.byVM && after.byVM == s.byVM[vm := after.byVM[vm]]
          && Gains(c, Lookup(s.byVM, vm, NEW_ACCUMULATOR), after.byVM[vm], issue, latencyNs)
        else
          && after.byVM == s.byVM
          && after.lost == s.lost.(unmappedCgroup := Wrap(s.lost.unmappedCgroup as int + 1)))
  }

  lemma LatencyIsMeasured(c: Config, s: State, p: Pending, issue: RawEvent, latencyNs: u64)
    requires Announces(c, issue, p)
    ensures Measures(c, s, AfterLatency(c, s, p, latencyNs), issue, latencyNs)
  {
    if issue.cgroupId in c.index {
      AccumulateGains(c, Lookup(s.byVM, c.index[issue.cgroupId], NEW_ACCUMULATOR), p, issue, latencyNs);
    }
  }

  lemma CompleteByText(c: Config, s: State, e: RawEvent)
    requires Says(c.lower, e.kind, "complete")
    ensures AfterRaw(c, s, e) == AfterComplete(c, s, e.requestPointer, e.timestampNs)
  {
    KindOf(c.lower, e.kind);
  }

  lemma PendingIsMeasured(c: Config, s: State, pointer: u64, timestampNs: u64, issue: RawEvent)
    requires pointer in s.issues && Announces(c, issue, s.issues[pointer]) && timestampNs >= issue.timestampNs
    ensures AfterComplete(c, s, pointer, timestampNs).issues == s.issues - {pointer}
    ensures Measures(c, s, AfterComplete(c, s, pointer, timestampNs), issue, timestampNs - issue.timestampNs)
  {
    var p, latencyNs := s.issues[pointer], timestampNs - issue.timestampNs;
    var rest := s.(issues := s.issues - {pointer});
    var after := AfterLatency(c, rest, p, latencyNs);
    assert AfterComplete(c, s, pointer, timestampNs) == after;
    LatencyIsMeasured(c, rest, p, issue, latencyNs);
    SameMeasures(c, rest, s, after, issue, latencyNs);
  }

  lemma SameMeasures(c: Config, s: State, t: State, after: State, issue: RawEvent, latencyNs: u64)
    requires Measures(c, s, after, issue, latencyNs) && t == s.(issues := t.issues)
    ensures Measures(c, t, after, issue, latencyNs)
  {
  }

  /** Its completion takes a pending request out and measures its latency. */
  lemma CompletionIsMeasured(c: Config, s: State, issue: RawEvent, e: RawEvent)
    requires Says(c.lower, e.kind, "complete") && e.requestPointer in s.issues
    requires Announces(c, issue, s.issues[e.requestPointer]) && e.timestampNs >= issue.timestampNs
    ensures AfterRaw(c, s, e).issues == s.issues - {e.requestPointer}
    ensures Measures(c, s, AfterRaw(c, s, e), issue, e.timestampNs - issue.timestampNs)
  {
    CompleteByText(c, s, e);
    PendingIsMeasured(c, s, e.requestPointer, e.timestampNs, issue);
  }

  lemma AccumulateGains(c: Config, a: Accumulator, p: Pending, issue: RawEvent, latencyNs: u64)
    requires Announces(c, issue, p)
    ensures Gains(c, a, Accumulate(a, p, latencyNs), issue, latencyNs)
  {
    CountIsText(c.lower, a.operations, issue.operation, p.operation);
    var key := KeyOf(p);
    assert Spells(c.lower, issue.operation, key.operation);
  }

  // ----- one request -----

  /** A new request that is issued and completed leaves no trace among the pending ones,
      and one latency: its texts decide where it is counted. */
  lemma RequestIsCounted(c: Config, s: State, issue: RawEvent, complete: RawEvent)
    requires Storable(c, issue) && issue.requestPointer !in s.issues && Says(c.lower, complete.kind, "complete")
    requires complete.requestPointer == issue.requestPointer && complete.timestampNs >= issue.timestampNs
    ensures var after := AfterRaw(c, AfterRaw(c, s, issue), complete);
            after.issues == s.issues && Measures(c, s, after, issue, complete.timestampNs - issue.timestampNs)
  {
    IssueIsStored(c, s, issue);
    CompletionIsMeasured(c, AfterRaw(c, s, issue), issue, complete);
  }

  // ----- runs -----

  function RunRaw(c: Config, events: seq<RawEvent>): State {
    if events == [] then INITIAL else AfterRaw(c, RunRaw(c, events[..|events| - 1]), events[|events| - 1])
  }

  function NormalizedAll(lower: string -> string, events: seq<RawEvent>): seq<Event> {
    seq(|events|, i requires 0 <= i < |events| => Normalized(lower, events[i]))
  }

  /** A run of events as they are delivered is the run of the events normalised, so
      everything proved of runs holds of it. */
  lemma {:induction false} RawRunIsRun(c: Config, events: seq<RawEvent>)
    ensures RunRaw(c, events) == RunAll(c, NormalizedAll(c.lower, events))
  {
    if events == [] {
    } else {
      var n := |events| - 1;
      RawRunIsRun(c, events[..n]);
      assert NormalizedAll(c.lower, events)[..n] == NormalizedAll(c.lower, events[..n]);
    }
  }
}
