/** What a list of events says by itself, and that the aggregator's state after any run
    agrees with it: the pending requests, the loss counters, the event ledger and the
    attribution of every measured latency. */
module EventLog {
  import opened Words
  import opened Histogram
  import opened Devices
  import opened Aggregator

  // ----- the reference: the fate of each event, read off the log -----

  datatype Fate =
    | Unsupported
    | BioMissing
    | BlkcgMissing
    | Stacked
    | FilteredIssue(previous: Option<Pending>)
    | StoredIssue(previous: Option<Pending>, reissue: bool)
    | Missed
    | FilteredDone
    | Backwards
    | Measured(issue: Pending, latencyNs: u64)

  /** The request an issue event describes, unless it is rejected. */
  function Admitted(c: Config, e: Event): Option<Pending> {
    if e.unsupportedRequest || e.requestPointer == 0 || e.timestampNs == 0 then None
    else if c.filter != "" && e.device != c.filter then Some(FILTERED_OUT)
    else if e.missingBio || e.missingBlkcg || e.cgroupId == 0 || e.stackedDeviceAmbiguous then None
    else Some(Pending(e.timestampNs, e.cgroupId, e.device, e.operation, false))
  }

  /** The latest admitted issue of a request that no completion has followed. */
  function PendingFor(c: Config, events: seq<Event>, pointer: u64): Option<Pending> {
    if events == [] then None else
    var before, e := events[..|events| - 1], events[|events| - 1];
    if e.requestPointer != pointer || e.kind.OtherKind? then PendingFor(c, before, pointer)
    else if e.kind.Complete? then None
    else if Admitted(c, e).Some? then Admitted(c, e)
    else PendingFor(c, before, pointer)
  }

  /** The fate of an event, given what is pending for its request. */
  function FateGiven(c: Config, pending: Option<Pending>, e: Event): Fate {
    match e.kind
    case OtherKind => Unsupported
    case Issue =>
      if Admitted(c, e).Some? then
        (if Admitted(c, e).value.filteredOut then FilteredIssue(pending) else StoredIssue(pending, e.requeueOrReissue))
      else if e.unsupportedRequest || e.requestPointer == 0 || e.timestampNs == 0 then Unsupported
      else if e.missingBio then BioMissing
      else if e.missingBlkcg || e.cgroupId == 0 then BlkcgMissing
      else Stacked
    case Complete =>
      if pending.None? then Missed
      else if pending.value.filteredOut then FilteredDone
      else if e.timestampNs < pending.value.timestampNs then Backwards
      else Measured(pending.value, e.timestampNs - pending.value.timestampNs)
  }

  function FateOf(c: Config, before: seq<Event>, e: Event): Fate {
    FateGiven(c, PendingFor(c, before, e.requestPointer), e)
  }

  /** How many events met each fate. */
  datatype Tally = Tally(
    unsupported: nat, bioMissing: nat, blkcgMissing: nat, stacked: nat,
    filtered: nat, filteredFresh: nat, filteredOverWaiting: nat,
    stored: nat, storedFresh: nat, storedOverFiltered: nat, duplicates: nat, reissues: nat,
    missed: nat, filteredDone: nat, backwards: nat, measured: nat)

  function OneIf(b: bool): nat {
    if b then 1 else 0
  }

  function Tallied(t: Tally, f: Fate): Tally {
    match f
    case Unsupported => t.(unsupported := t.unsupported + 1)
    case BioMissing => t.(bioMissing := t.bioMissing + 1)
    case BlkcgMissing => t.(blkcgMissing := t.blkcgMissing + 1)
    case Stacked => t.(stacked := t.stacked + 1)
    case FilteredIssue(p) =>
      t.(filtered := t.filtered + 1,
         filteredFresh := t.filteredFresh + OneIf(p.None?),
         filteredOverWaiting := t.filteredOverWaiting + OneIf(p.Some? && !p.value.filteredOut))
    case StoredIssue(p, reissue) =>
      t.(stored := t.stored + 1,
         storedFresh := t.storedFresh + OneIf(p.None?),
         storedOverFiltered := t.storedOverFiltered + OneIf(p.Some? && p.value.filteredOut),
         duplicates := t.duplicates + OneIf(p.Some? && !reissue),
         reissues := t.reissues + OneIf(p.Some? && reissue))
    case Missed => t.(missed := t.missed + 1)
    case FilteredDone => t.(filteredDone := t.filteredDone + 1)
    case Backwards => t.(backwards := t.backwards + 1)
    case Measured(_, _) => t.(measured := t.measured + 1)
  }

  function Count(c: Config, events: seq<Event>): Tally {
    if events == [] then Tally(0, 0, 0, 0, 0, 0, 0, 0, 0, 0, 0, 0, 0, 0, 0, 0) else
    var before := events[..|events| - 1];
    Tallied(Count(c, before), FateOf(c, before, events[|events| - 1]))
  }

  /** A completed request and its latency. */
  datatype Measurement = Measurement(issue: Pending, latencyNs: u64)

  function MeasurementOf(f: Fate): seq<Measurement> {
    if f.Measured? then [Measurement(f.issue, f.latencyNs)] else []
  }

  /** The completed requests, in order of completion. */
  function Completed(c: Config, events: seq<Event>): seq<Measurement> {
    if events == [] then [] else
    var before := events[..|events| - 1];
    Completed(c, before) + MeasurementOf(FateOf(c, before, events[|events| - 1]))
  }

  // ----- the pending requests and the loss counters agree -----

  function Found(issues: map<u64, Pending>, pointer: u64): Option<Pending> {
    if pointer in issues then Some(issues[pointer]) else None
  }

  ghost predicate IssuesAgree(c: Config, events: seq<Event>, issues: map<u64, Pending>) {
    forall pointer :: PendingFor(c, events, pointer) == Found(issues, pointer)
  }

  lemma EventIssues(c: Config, before: seq<Event>, s: State, e: Event)
    requires IssuesAgree(c, before, s.issues)
    ensures IssuesAgree(c, before + [e], After(c, s, e).issues)
  {
    var after := After(c, s, e).issues;
    forall pointer
      ensures PendingFor(c, before + [e], pointer) == Found(after, pointer)
    {
      PendingOne(c, before, e, pointer);
      FoundAfter(c, s, e, pointer);
      assert PendingFor(c, before, pointer) == Found(s.issues, pointer);
    }
  }

  lemma FoundAfter(c: Config, s: State, e: Event, pointer: u64)
    ensures Found(After(c, s, e).issues, pointer)
            == if e.requestPointer != pointer || e.kind.OtherKind? then Found(s.issues, pointer)
               else if e.kind.Complete? then None
               else if Admitted(c, e).Some? then Admitted(c, e) else Found(s.issues, pointer)
  {
  }

  lemma PendingOne(c: Config, before: seq<Event>, e: Event, pointer: u64)
    ensures PendingFor(c, before + [e], pointer)
            == if e.requestPointer != pointer || e.kind.OtherKind? then PendingFor(c, before, pointer)
               else if e.kind.Complete? then None
               else if Admitted(c, e).Some? then Admitted(c, e) else PendingFor(c, before, pointer)
  {
    assert (before + [e])[..|before|] == before;
  }

  lemma {:induction false} IssuesArePending(c: Config, events: seq<Event>)
    ensures IssuesAgree(c, events, RunAll(c, events).issues)
  {
    if events == [] {
    } else {
      var before, e := events[..|events| - 1], events[|events| - 1];
      IssuesArePending(c, before);
      EventIssues(c, before, RunAll(c, before), e);
      assert before + [e] == events;
    }
  }

  /** The loss counters, modulo 2^64, are tallies; nothing else is counted while events
      are consumed. */
  function LossOf(t: Tally, unmapped: nat): Unattributed {
    NO_LOSS.(
      missingBio := Wrap(t.bioMissing), missingBlkcg := Wrap(t.blkcgMissing), unmappedCgroup := Wrap(unmapped),
      lookupMiss := Wrap(t.missed), duplicateIssue := Wrap(t.duplicates), requeueOrReissue := Wrap(t.reissues),
      unsupportedRequest := Wrap(t.unsupported + t.backwards), stackedDeviceAmbiguous := Wrap(t.stacked))
  }

  lemma IssueLoss(c: Config, t: Tally, unmapped: nat, s: State, e: Event)
    requires s.lost == LossOf(t, unmapped) && e.kind.Issue?
    ensures After(c, s, e).lost == LossOf(Tallied(t, FateGiven(c, Found(s.issues, e.requestPointer), e)), unmapped)
  {
    var f := FateGiven(c, Found(s.issues, e.requestPointer), e);
    if f.StoredIssue? {
      if f.previous.Some? && f.reissue { BumpWraps(t.reissues); }
      if f.previous.Some? && !f.reissue { BumpWraps(t.duplicates); }
    } else {
      RejectedLoss(c, t, unmapped, s, e);
    }
  }

  lemma RejectedLoss(c: Config, t: Tally, unmapped: nat, s: State, e: Event)
    requires s.lost == LossOf(t, unmapped) && e.kind.Issue?
    requires !FateGiven(c, Found(s.issues, e.requestPointer), e).StoredIssue?
    ensures After(c, s, e).lost == LossOf(Tallied(t, FateGiven(c, Found(s.issues, e.requestPointer), e)), unmapped)
  {
    match FateGiven(c, Found(s.issues, e.requestPointer), e)
    case Unsupported => BumpWraps(t.unsupported + t.backwards);
    case BioMissing => BumpWraps(t.bioMissing);
    case BlkcgMissing => BumpWraps(t.blkcgMissing);
    case Stacked => BumpWraps(t.stacked);
    case _ =>
  }

  lemma CompleteLoss(c: Config, t: Tally, ms: seq<Measurement>, s: State, e: Event)
    requires s.lost == LossOf(t, |Select(c, ms, Unmapped)|) && e.kind.Complete?
    ensures var f := FateGiven(c, Found(s.issues, e.requestPointer), e);
            After(c, s, e).lost == LossOf(Tallied(t, f), |Select(c, ms + MeasurementOf(f), Unmapped)|)
  {
    var f := FateGiven(c, Found(s.issues, e.requestPointer), e);
    BumpWraps(t.missed);
    BumpWraps(t.unsupported + t.backwards);
    BumpWraps(|Select(c, ms, Unmapped)|);
    if f.Measured? {
      SelectOne(c, ms, Measurement(f.issue, f.latencyNs), Unmapped);
    } else {
      assert ms + MeasurementOf(f) == ms;
    }
  }

  lemma EventLoss(c: Config, t: Tally, ms: seq<Measurement>, s: State, e: Event)
    requires s.lost == LossOf(t, |Select(c, ms, Unmapped)|)
    ensures var f := FateGiven(c, Found(s.issues, e.requestPointer), e);
            After(c, s, e).lost == LossOf(Tallied(t, f), |Select(c, ms + MeasurementOf(f), Unmapped)|)
  {
    var f := FateGiven(c, Found(s.issues, e.requestPointer), e);
    if e.kind.Complete? {
      CompleteLoss(c, t, ms, s, e);
    } else {
      assert ms + MeasurementOf(f) == ms;
      if e.kind.Issue? {
        IssueLoss(c, t, |Select(c, ms, Unmapped)|, s, e);
      } else {
        BumpWraps(t.unsupported + t.backwards);
      }
    }
  }

  lemma {:induction false} CountersAreTallies(c: Config, events: seq<Event>)
    ensures RunAll(c, events).lost == LossOf(Count(c, events), |Select(c, Completed(c, events), Unmapped)|)
  {
    if events == [] {
    } else {
      var before, e := events[..|events| - 1], events[|events| - 1];
      CountersAreTallies(c, before);
      IssuesArePending(c, before);
      assert PendingFor(c, before, e.requestPointer) == Found(RunAll(c, before).issues, e.requestPointer);
      EventLoss(c, Count(c, before), Completed(c, before), RunAll(c, before), e);
    }
  }

  // ----- the ledger -----

  /** The fates add up to a number of events. */
  ghost predicate AddsUp(t: Tally, n: nat) {
    && n == t.unsupported + t.bioMissing + t.blkcgMissing + t.stacked + t.filtered + t.stored
            + t.missed + t.filteredDone + t.backwards + t.measured
    && t.stored == t.storedFresh + t.duplicates + t.reissues && t.filteredFresh <= t.filtered
  }

  lemma OneFate(t: Tally, f: Fate, n: nat)
    requires AddsUp(t, n)
    ensures AddsUp(Tallied(t, f), n + 1)
  {
  }

  /** Every event has exactly one fate. */
  lemma {:induction false} EveryEventCounted(c: Config, events: seq<Event>)
    ensures AddsUp(Count(c, events), |events|)
  {
    if events == [] {
    } else {
      var n := |events| - 1;
      EveryEventCounted(c, events[..n]);
      OneFate(Count(c, events[..n]), FateOf(c, events[..n], events[n]), n);
    }
  }

  lemma KeysInsert(issues: map<u64, Pending>, pointer: u64, p: Pending)
    ensures |issues[pointer := p]| == |issues| + OneIf(pointer !in issues)
  {
    var after := issues[pointer := p];
    assert after.Keys == issues.Keys + {pointer};
    assert |after.Keys| == |issues.Keys| + OneIf(pointer !in issues);
  }

  lemma Without(waiting: set<u64>, pointer: u64)
    ensures |waiting - {pointer}| + OneIf(pointer in waiting) == |waiting|
  {
    if pointer !in waiting { assert waiting - {pointer} == waiting; }
  }

  lemma OthersWaiting(issues: map<u64, Pending>, pointer: u64, p: Pending)
    ensures Waiting(issues[pointer := p]) - {pointer} == Waiting(issues) - {pointer}
    ensures pointer in Waiting(issues[pointer := p]) <==> !p.filteredOut
  {
    var after := issues[pointer := p];
    forall k | k != pointer
      ensures k in Waiting(after) <==> k in Waiting(issues)
    {
      assert k in after <==> k in issues;
    }
  }

  lemma WaitingInsert(issues: map<u64, Pending>, pointer: u64, p: Pending)
    ensures |Waiting(issues[pointer := p])| + OneIf(pointer in Waiting(issues))
            == |Waiting(issues)| + OneIf(!p.filteredOut)
  {
    OthersWaiting(issues, pointer, p);
    Without(Waiting(issues), pointer);
    Without(Waiting(issues[pointer := p]), pointer);
  }

  lemma WaitingRemove(issues: map<u64, Pending>, pointer: u64)
    requires pointer in issues
    ensures var after := issues - {pointer};
            && |after| == |issues| - 1
            && |Waiting(after)| == |Waiting(issues)| - OneIf(!issues[pointer].filteredOut)
  {
    var after := issues - {pointer};
    assert after.Keys == issues.Keys - {pointer};
    assert |after.Keys| == |issues.Keys| - 1;
    assert Waiting(after) == Waiting(issues) - {pointer};
    assert pointer in Waiting(issues) <==> !issues[pointer].filteredOut;
  }

  /** The requests still pending are those that entered and neither completed nor were
      replaced. The second equation counts only the requests that are not filtered out:
      with a filter, a filtered issue may silently replace one of them, and an issue may
      count as a duplicate of a filtered one. */
  ghost predicate Balanced(t: Tally, issues: map<u64, Pending>) {
    && t.storedFresh + t.filteredFresh == t.filteredDone + t.backwards + t.measured + |issues|
    && t.stored + t.storedOverFiltered
       == t.backwards + t.measured + t.duplicates + t.reissues + t.filteredOverWaiting + |Waiting(issues)|
  }

  lemma {:induction false} PendingBalance(c: Config, events: seq<Event>)
    ensures Balanced(Count(c, events), RunAll(c, events).issues)
  {
    if events == [] {
      assert Waiting(map[]) == {};
    } else {
      var before, e := events[..|events| - 1], events[|events| - 1];
      PendingBalance(c, before);
      IssuesArePending(c, before);
      assert PendingFor(c, before, e.requestPointer) == Found(RunAll(c, before).issues, e.requestPointer);
      EventBalance(c, Count(c, before), RunAll(c, before), e);
    }
  }

  lemma IssueBalance(c: Config, t: Tally, s: State, e: Event)
    requires Balanced(t, s.issues) && e.kind.Issue? && Admitted(c, e).Some?
    ensures Balanced(Tallied(t, FateGiven(c, Found(s.issues, e.requestPointer), e)), After(c, s, e).issues)
  {
    var p := Admitted(c, e).value;
    KeysInsert(s.issues, e.requestPointer, p);
    WaitingInsert(s.issues, e.requestPointer, p);
    assert After(c, s, e).issues == s.issues[e.requestPointer := p];
  }

  lemma CompleteBalance(c: Config, t: Tally, s: State, e: Event)
    requires Balanced(t, s.issues) && e.kind.Complete? && e.requestPointer in s.issues
    ensures Balanced(Tallied(t, FateGiven(c, Found(s.issues, e.requestPointer), e)), After(c, s, e).issues)
  {
    WaitingRemove(s.issues, e.requestPointer);
    assert After(c, s, e).issues == s.issues - {e.requestPointer};
  }

  lemma EventBalance(c: Config, t: Tally, s: State, e: Event)
    requires Balanced(t, s.issues)
    ensures Balanced(Tallied(t, FateGiven(c, Found(s.issues, e.requestPointer), e)), After(c, s, e).issues)
  {
    if e.kind.Issue? && Admitted(c, e).Some? {
      IssueBalance(c, t, s, e);
    } else if e.kind.Complete? && e.requestPointer in s.issues {
      CompleteBalance(c, t, s, e);
    } else {
      assert After(c, s, e).issues == s.issues;
    }
  }

  /** Without a filter no request is filtered out. */
  lemma {:induction false} NoFilter(c: Config, events: seq<Event>)
    requires c.filter == ""
    ensures var t := Count(c, events);
            t.filtered == t.filteredOverWaiting == t.storedOverFiltered == t.filteredDone == 0
    ensures forall pointer :: PendingFor(c, events, pointer).Some? ==> !PendingFor(c, events, pointer).value.filteredOut
  {
    if events == [] {
    } else {
      NoFilter(c, events[..|events| - 1]);
    }
  }

  /** Every event is in exactly one of the report's loss counters, a stored issue or a
      host latency. */
  ghost predicate EventsBalance(s: State, stored: nat, events: nat) {
    events == s.lost.unsupportedRequest + s.lost.missingBio + s.lost.missingBlkcg + s.lost.stackedDeviceAmbiguous
              + stored + s.lost.lookupMiss + s.host.count
  }

  /** Every stored issue was completed, or replaced by a counted issue, or is pending. */
  ghost predicate StoredBalance(s: State, t: Tally) {
    t.stored == t.backwards + t.measured + s.lost.duplicateIssue + s.lost.requeueOrReissue + |Waiting(s.issues)|
  }

  /** The loss counters that count events are exact. */
  ghost predicate Exact(lost: Unattributed, t: Tally) {
    && lost.missingBio == t.bioMissing && lost.missingBlkcg == t.blkcgMissing && lost.lookupMiss == t.missed
    && lost.duplicateIssue == t.duplicates && lost.requeueOrReissue == t.reissues
    && lost.unsupportedRequest == t.unsupported + t.backwards && lost.stackedDeviceAmbiguous == t.stacked
  }

  lemma LossIsExact(t: Tally, n: nat, unmapped: nat)
    requires AddsUp(t, n) && n < TWO_64
    ensures Exact(LossOf(t, unmapped), t)
  {
    SmallWrap(t.bioMissing);
    SmallWrap(t.blkcgMissing);
    SmallWrap(t.missed);
    SmallWrap(t.duplicates);
    SmallWrap(t.reissues);
    SmallWrap(t.unsupported + t.backwards);
    SmallWrap(t.stacked);
  }

  lemma LedgerOf(t: Tally, s: State, n: nat)
    requires AddsUp(t, n) && Balanced(t, s.issues) && Exact(s.lost, t)
    ensures StoredBalance(s, t) <==> t.storedOverFiltered == t.filteredOverWaiting
    ensures t.filtered + t.filteredDone == 0 && s.host.count == t.measured ==> EventsBalance(s, t.stored, n)
  {
  }

  /** The event ledger without a device filter. */
  lemma Ledger(c: Config, events: seq<Event>)
    requires c.filter == "" && |events| < TWO_64
    ensures EventsBalance(RunAll(c, events), Count(c, events).stored, |events|)
    ensures StoredBalance(RunAll(c, events), Count(c, events))
  {
    EveryEventCounted(c, events);
    NoFilter(c, events);
    PendingBalance(c, events);
    CountersAreTallies(c, events);
    HostIsLog(c, events);
    LossIsExact(Count(c, events), |events|, |Select(c, Completed(c, events), Unmapped)|);
    LedgerOf(Count(c, events), RunAll(c, events), |events|);
  }

  /** With any filter the stored issues balance exactly when as many issues replaced a
      filtered request as filtered issues replaced a stored one. */
  lemma FilteredLedger(c: Config, events: seq<Event>)
    requires |events| < TWO_64
    ensures StoredBalance(RunAll(c, events), Count(c, events))
            <==> Count(c, events).storedOverFiltered == Count(c, events).filteredOverWaiting
  {
    EveryEventCounted(c, events);
    PendingBalance(c, events);
    CountersAreTallies(c, events);
    LossIsExact(Count(c, events), |events|, |Select(c, Completed(c, events), Unmapped)|);
    LedgerOf(Count(c, events), RunAll(c, events), |events|);
  }

  lemma CountOne(c: Config, before: seq<Event>, e: Event)
    ensures Count(c, before + [e]) == Tallied(Count(c, before), FateOf(c, before, e))
  {
    assert (before + [e])[..|before|] == before;
  }

  lemma LatestIssue(c: Config, before: seq<Event>, e: Event)
    requires e.kind.Issue? && Admitted(c, e).Some?
    ensures PendingFor(c, before + [e], e.requestPointer) == Admitted(c, e)
  {
  }

  /** A filtered issue of a request that is waiting. */
  ghost predicate Overwrites(f: Fate) {
    f.FilteredIssue? && f.previous.Some? && !f.previous.value.filteredOut
  }

  /** The two can differ: a filtered re-issue replaces a pending request uncounted. */
  lemma FilterLosesRequest(c: Config, before: seq<Event>, e: Event)
    requires |before| + 1 < TWO_64 && StoredBalance(RunAll(c, before), Count(c, before))
    requires Overwrites(FateOf(c, before, e))
    ensures !StoredBalance(RunAll(c, before + [e]), Count(c, before + [e]))
  {
    FilteredLedger(c, before);
    FilteredLedger(c, before + [e]);
    CountOne(c, before, e);
  }

  /** That is every stored request whose pointer is issued again for another device. */
  lemma FilteredReissue(c: Config, before: seq<Event>, again: Event)
    requires |before| + 1 < TWO_64 && StoredBalance(RunAll(c, before), Count(c, before))
    requires again.kind.Issue? && !again.unsupportedRequest && again.requestPointer != 0 && again.timestampNs != 0
    requires c.filter != "" && again.device != c.filter
    ensures var p := PendingFor(c, before, again.requestPointer);
            StoredBalance(RunAll(c, before + [again]), Count(c, before + [again])) <==> p.None? || p.value.filteredOut
  {
    var p := PendingFor(c, before, again.requestPointer);
    assert FateOf(c, before, again) == FilteredIssue(p);
    FilteredLedger(c, before);
    if p.None? || p.value.filteredOut {
      FilteredLedger(c, before + [again]);
      CountOne(c, before, again);
    } else {
      FilterLosesRequest(c, before, again);
    }
  }

  lemma FirstStored(c: Config, first: Event)
    requires first.kind.Issue? && Admitted(c, first).Some? && !Admitted(c, first).value.filteredOut
    ensures StoredBalance(RunAll(c, [] + [first]), Count(c, [] + [first]))
    ensures PendingFor(c, [] + [first], first.requestPointer) == Admitted(c, first)
  {
    LatestIssue(c, [], first);
    CountOne(c, [], first);
    FilteredLedger(c, [] + [first]);
  }

  /** Two issues of one request are enough, the first for the device of the filter. */
  lemma TwoIssuesLoseOne(c: Config, first: Event, again: Event)
    requires first.kind.Issue? && Admitted(c, first).Some? && !Admitted(c, first).value.filteredOut
    requires c.filter != "" && again == first.(device := again.device) && again.device != c.filter
    ensures !StoredBalance(RunAll(c, [] + [first] + [again]), Count(c, [] + [first] + [again]))
  {
    FirstStored(c, first);
    FilteredReissue(c, [] + [first], again);
  }

  // ----- attribution -----

  /** A group of completed requests. */
  datatype Selector =
    | Everything
    | Unmapped
    | OfVM(vm: nat)
    | OfOperation(vm: nat, operation: Operation)
    | OfDevice(vm: nat, key: DeviceOperation)
    | OnDevice(vm: nat, device: string)

  predicate Matches(c: Config, m: Measurement, sel: Selector) {
    var mapped := m.issue.cgroupId in c.index;
    match sel
    case Everything => true
    case Unmapped => !mapped
    case OfVM(vm) => mapped && c.index[m.issue.cgroupId] == vm
    case OfOperation(vm, operation) => mapped && c.index[m.issue.cgroupId] == vm && m.issue.operation == operation
    case OfDevice(vm, key) => mapped && c.index[m.issue.cgroupId] == vm && KeyOf(m.issue) == key
    case OnDevice(vm, device) => mapped && c.index[m.issue.cgroupId] == vm && m.issue.device == device
  }

  /** The latencies of a group, in order of completion. */
  function Select(c: Config, ms: seq<Measurement>, sel: Selector): seq<u64> {
    if ms == [] then [] else
    var rest, m := Select(c, ms[..|ms| - 1], sel), ms[|ms| - 1];
    if Matches(c, m, sel) then rest + [m.latencyNs] else rest
  }

  lemma SelectOne(c: Config, ms: seq<Measurement>, m: Measurement, sel: Selector)
    ensures Select(c, ms + [m], sel) == Select(c, ms, sel) + (if Matches(c, m, sel) then [m.latencyNs] else [])
  {
    assert (ms + [m])[..|ms|] == ms;
  }

  lemma FromLogOne(xs: seq<u64>, x: u64)
    ensures FromLog(xs + [x]) == Observed(FromLog(xs), x)
  {
    assert (xs + [x])[..|xs|] == xs;
  }

  /** One more completed request, for one group and its histogram. */
  lemma GroupStep(c: Config, ms: seq<Measurement>, m: Measurement, sel: Selector)
    ensures var xs, ys := Select(c, ms, sel), Select(c, ms + [m], sel);
            if Matches(c, m, sel) then ys != [] && FromLog(ys) == Observed(FromLog(xs), m.latencyNs) && |ys| == |xs| + 1
            else ys == xs
  {
    SelectOne(c, ms, m, sel);
    FromLogOne(Select(c, ms, sel), m.latencyNs);
  }

  function OperationCount(c: Config, ms: seq<Measurement>, vm: nat, op: Operation): u64 {
    Wrap(|Select(c, ms, OfOperation(vm, op))|)
  }

  /** A map's histogram for a key is that of the log. */
  ghost predicate DeviceAgrees(
    c: Config, ms: seq<Measurement>, vm: nat, histograms: map<DeviceOperation, Totals>, key: DeviceOperation) {
    && (key in histograms <==> Select(c, ms, OfDevice(vm, key)) != [])
    && Lookup(histograms, key, Empty()) == FromLog(Select(c, ms, OfDevice(vm, key)))
  }

  ghost predicate DevicesAgree(c: Config, ms: seq<Measurement>, vm: nat, histograms: map<DeviceOperation, Totals>) {
    forall key :: DeviceAgrees(c, ms, vm, histograms, key)
  }

  /** The named devices are those of the completed requests. */
  ghost predicate NamesAgree(c: Config, ms: seq<Measurement>, vm: nat, devices: set<string>) {
    forall device :: device in devices <==> device != "" && Select(c, ms, OnDevice(vm, device)) != []
  }

  ghost predicate OperationsAgree(c: Config, ms: seq<Measurement>, vm: nat, o: Operations) {
    && o.readOps == OperationCount(c, ms, vm, Read)
    && o.writeOps == OperationCount(c, ms, vm, Write)
    && o.flushOps == OperationCount(c, ms, vm, Flush)
    && o.discardOps == OperationCount(c, ms, vm, Discard)
    && o.unknownOps == OperationCount(c, ms, vm, Unknown)
  }

  ghost predicate AccumulatorAgrees(c: Config, ms: seq<Measurement>, vm: nat, a: Accumulator) {
    && a.latency == FromLog(Select(c, ms, OfVM(vm)))
    && DevicesAgree(c, ms, vm, a.deviceOperations)
    && OperationsAgree(c, ms, vm, a.operations) && NamesAgree(c, ms, vm, a.devices)
  }

  /** Every VM's histograms and counters are those of the completed requests whose cgroup
      the index maps to it, and the host's those of all completed requests. */
  ghost predicate Attributed(c: Config, ms: seq<Measurement>, s: State) {
    && s.host == FromLog(Select(c, ms, Everything))
    && forall vm: nat ::
         && (vm in s.byVM <==> Select(c, ms, OfVM(vm)) != [])
         && AccumulatorAgrees(c, ms, vm, Lookup(s.byVM, vm, NEW_ACCUMULATOR))
  }

  lemma OtherKey(c: Config, ms: seq<Measurement>, m: Measurement, vm: nat, histograms: map<DeviceOperation,
                 Totals>, key: DeviceOperation)
    requires DeviceAgrees(c, ms, vm, histograms, key) && !Matches(c, m, OfVM(vm))
    ensures DeviceAgrees(c, ms + [m], vm, histograms, key)
  {
    GroupStep(c, ms, m, OfDevice(vm, key));
  }

  lemma OtherVM(c: Config, ms: seq<Measurement>, m: Measurement, vm: nat, a: Accumulator)
    requires AccumulatorAgrees(c, ms, vm, a) && !Matches(c, m, OfVM(vm))
    ensures AccumulatorAgrees(c, ms + [m], vm, a)
  {
    GroupStep(c, ms, m, OfVM(vm));
    forall key
      ensures DeviceAgrees(c, ms + [m], vm, a.deviceOperations, key)
    {
      OtherKey(c, ms, m, vm, a.deviceOperations, key);
    }
    forall device
      ensures Select(c, ms + [m], OnDevice(vm, device)) == Select(c, ms, OnDevice(vm, device))
    {
      GroupStep(c, ms, m, OnDevice(vm, device));
    }
    forall op
      ensures OperationCount(c, ms + [m], vm, op) == OperationCount(c, ms, vm, op)
    {
      GroupStep(c, ms, m, OfOperation(vm, op));
    }
  }

  lemma KeyStep(c: Config, ms: seq<Measurement>, m: Measurement, vm: nat, histograms: map<DeviceOperation,
                Totals>, key: DeviceOperation)
    requires DeviceAgrees(c, ms, vm, histograms, key) && Matches(c, m, OfVM(vm))
    ensures var own := KeyOf(m.issue);
            var observed := histograms[own := Observed(Lookup(histograms, own, Empty()), m.latencyNs)];
            DeviceAgrees(c, ms + [m], vm, observed, key)
  {
    GroupStep(c, ms, m, OfDevice(vm, key));
  }

  lemma DeviceStep(c: Config, ms: seq<Measurement>, m: Measurement, vm: nat, a: Accumulator)
    requires DevicesAgree(c, ms, vm, a.deviceOperations) && Matches(c, m, OfVM(vm))
    ensures DevicesAgree(c, ms + [m], vm, Accumulate(a, m.issue, m.latencyNs).deviceOperations)
  {
    forall key
      ensures DeviceAgrees(c, ms + [m], vm, Accumulate(a, m.issue, m.latencyNs).deviceOperations, key)
    {
      KeyStep(c, ms, m, vm, a.deviceOperations, key);
    }
  }

  lemma NameStep(c: Config, ms: seq<Measurement>, m: Measurement, vm: nat, devices: set<string>)
    requires NamesAgree(c, ms, vm, devices) && Matches(c, m, OfVM(vm))
    ensures NamesAgree(c, ms + [m], vm, if m.issue.device != "" then devices + {m.issue.device} else devices)
  {
    forall device
      ensures Select(c, ms + [m], OnDevice(vm, device)) != []
              <==> Select(c, ms, OnDevice(vm, device)) != [] || device == m.issue.device
    {
      GroupStep(c, ms, m, OnDevice(vm, device));
    }
  }

  lemma OperationStep(c: Config, ms: seq<Measurement>, m: Measurement, vm: nat, o: Operations)
    requires OperationsAgree(c, ms, vm, o) && Matches(c, m, OfVM(vm))
    ensures OperationsAgree(c, ms + [m], vm, CountOperation(o, m.issue.operation))
  {
    forall op
      ensures OperationCount(c, ms + [m], vm, op)
              == if op == m.issue.operation then Bump(OperationCount(c, ms, vm, op)) else OperationCount(c, ms, vm, op)
    {
      GroupStep(c, ms, m, OfOperation(vm, op));
      BumpWraps(|Select(c, ms, OfOperation(vm, op))|);
    }
  }

  lemma SameVM(c: Config, ms: seq<Measurement>, m: Measurement, vm: nat, a: Accumulator)
    requires AccumulatorAgrees(c, ms, vm, a) && Matches(c, m, OfVM(vm))
    ensures AccumulatorAgrees(c, ms + [m], vm, Accumulate(a, m.issue, m.latencyNs))
  {
    GroupStep(c, ms, m, OfVM(vm));
    DeviceStep(c, ms, m, vm, a);
    OperationStep(c, ms, m, vm, a.operations);
    NameStep(c, ms, m, vm, a.devices);
  }

  /** What a measured completion does to the state. */
  ghost predicate Absorbs(c: Config, s: State, m: Measurement, after: State) {
    && after.host == Observed(s.host, m.latencyNs)
    && (if m.issue.cgroupId in c.index then
          var vm := c.index[m.issue.cgroupId];
          after.byVM == s.byVM[vm := Accumulate(Lookup(s.byVM, vm, NEW_ACCUMULATOR), m.issue, m.latencyNs)]
        else after.byVM == s.byVM)
  }

  lemma AbsorbStep(c: Config, ms: seq<Measurement>, s: State, m: Measurement, after: State)
    requires Attributed(c, ms, s) && Absorbs(c, s, m, after)
    ensures Attributed(c, ms + [m], after)
  {
    GroupStep(c, ms, m, Everything);
    forall vm: nat
      ensures vm in after.byVM <==> Select(c, ms + [m], OfVM(vm)) != []
      ensures AccumulatorAgrees(c, ms + [m], vm, Lookup(after.byVM, vm, NEW_ACCUMULATOR))
    {
      GroupStep(c, ms, m, OfVM(vm));
      var a := Lookup(s.byVM, vm, NEW_ACCUMULATOR);
      if Matches(c, m, OfVM(vm)) {
        SameVM(c, ms, m, vm, a);
      } else {
        OtherVM(c, ms, m, vm, a);
      }
    }
  }

  lemma NothingAttributed(c: Config)
    ensures Attributed(c, [], INITIAL)
  {
  }

  lemma EventAbsorbed(c: Config, s: State, e: Event)
    ensures var f := FateGiven(c, Found(s.issues, e.requestPointer), e);
            if f.Measured? then Absorbs(c, s, Measurement(f.issue, f.latencyNs), After(c, s, e))
            else After(c, s, e).host == s.host && After(c, s, e).byVM == s.byVM
  {
  }

  lemma EventAttributed(c: Config, ms: seq<Measurement>, s: State, after: State, f: Fate)
    requires Attributed(c, ms, s)
    requires if f.Measured? then Absorbs(c, s, Measurement(f.issue, f.latencyNs), after)
             else after.host == s.host && after.byVM == s.byVM
    ensures Attributed(c, ms + MeasurementOf(f), after)
  {
    if f.Measured? {
      AbsorbStep(c, ms, s, Measurement(f.issue, f.latencyNs), after);
    } else {
      assert ms + MeasurementOf(f) == ms;
    }
  }

  /** After any run the aggregator is a faithful summary of the completed requests. */
  lemma {:induction false} AttributionIsLog(c: Config, events: seq<Event>)
    ensures Attributed(c, Completed(c, events), RunAll(c, events))
  {
    if events == [] {
      NothingAttributed(c);
    } else {
      var before := events[..|events| - 1];
      AttributionIsLog(c, before);
      IssuesArePending(c, before);
      var e := events[|events| - 1];
      assert PendingFor(c, before, e.requestPointer) == Found(RunAll(c, before).issues, e.requestPointer);
      EventAbsorbed(c, RunAll(c, before), e);
      EventAttributed(c, Completed(c, before), RunAll(c, before), RunAll(c, events), FateOf(c, before, e));
    }
  }

  lemma {:induction false} SelectEverything(c: Config, ms: seq<Measurement>)
    ensures |Select(c, ms, Everything)| == |ms|
  {
    if ms == [] {
    } else {
      SelectEverything(c, ms[..|ms| - 1]);
    }
  }

  lemma {:induction false} CompletedCount(c: Config, events: seq<Event>)
    ensures |Completed(c, events)| == Count(c, events).measured <= |events|
  {
    if events == [] {
    } else {
      CompletedCount(c, events[..|events| - 1]);
    }
  }

  lemma HostIsLog(c: Config, events: seq<Event>)
    requires |events| < TWO_64
    ensures RunAll(c, events).host.count == Count(c, events).measured
  {
    AttributionIsLog(c, events);
    CompletedCount(c, events);
    SelectEverything(c, Completed(c, events));
    FromLogDescribes(Select(c, Completed(c, events), Everything));
  }
}
