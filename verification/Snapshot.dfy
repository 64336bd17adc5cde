/** Adding a finished block-latency report to an evidence snapshot, replacing whatever an
    earlier report left there. */
module Snapshot {
  import opened Words
  import opened Sorting

  datatype Evidence =
    | Measured | Derived | Unavailable | Partial | Disabled | NotConfigured | Unsupported | ErrorState

  /** A list entry with its name. */
  datatype Named<T> = Named(name: string, content: T)

  /** A text of a report; the fixed ones are named, not spelled out. */
  datatype Text =
    | Spelled(text: string)
    | NoDetail | NotRequested | DegradedDetail | CollectorStatus(status: string)
    | LatencySource | WindowSource(window: string)
    | ExperimentalCaveat | ReusedCaveat
    | HostExplanation | VMExplanation | SuspectExplanation

  datatype SectionQuality = SectionQuality(state: Evidence, source: Text, error: Text)

  datatype Reason = Reason(state: Evidence, reason: Text)

  datatype Severity = Info | Warning | OtherSeverity(text: string)

  /** The explanation stands for the fixed evidence references too. */
  datatype Correlation = Correlation(present: bool, severity: Severity, explanation: Text)

  /** One VM of a report; the fields that are only copied are one text. */
  datatype ReportVM = ReportVM(name: string, totalOps: u64, p95: real, details: string)

  datatype Totals = Totals(
    attributedOps: u64, unattributedOps: u64, attributedPercent: real, unattributedPercent: real,
    matchedVMCount: nat, hostTotalOps: u64, hostP95: real)

  const NO_TOTALS := Totals(0, 0, 0.0, 0.0, 0, 0, 0.0)

  /** A finished report; header stands for the fields that are only copied. */
  datatype BlockReport = BlockReport(
    available: bool, status: string, quality: string, header: string, totals: Totals, vms: seq<ReportVM>,
    caveats: seq<string>)

  /** What a snapshot keeps of a report. */
  datatype Attribution = Attribution(
    available: bool, status: string, sourceWindow: string, quality: string, header: string, totals: Totals,
    victimOps: u64, victimP95: real, suspectOps: u64, suspectP95: real, vms: seq<ReportVM>, caveats: seq<Text>)

  /** The contents of a snapshot that matter here. */
  datatype Contents = Contents(
    sections: seq<Named<SectionQuality>>, unavailable: seq<Named<Reason>>, correlations: seq<Named<Correlation>>,
    overall: Evidence, attribution: Option<Attribution>, victim: string, suspect: string, windowId: string)

  const LEGACY := "ebpf_latency"
  const SECTION := "ebpf_vm_attribution"
  const HOST_CORRELATION := "host_storage_latency_available"
  const VM_CORRELATION := "vm_ebpf_attribution_available"
  const SUSPECT_CORRELATION := "suspect_vm_attributed_io_observed"
  const OWN_SECTIONS := {LEGACY, SECTION}
  const OWN_CORRELATIONS := {HOST_CORRELATION, VM_CORRELATION, SUSPECT_CORRELATION}

  // ----- lists of named entries -----

  /** The entries with other names, in order. */
  function Without<T>(entries: seq<Named<T>>, names: set<string>): seq<Named<T>> {
    if entries == [] then []
    else Without(entries[..|entries| - 1], names)
         + (if entries[|entries| - 1].name in names then [] else [entries[|entries| - 1]])
  }

  function CountNamed<T>(entries: seq<Named<T>>, name: string): nat {
    if entries == [] then 0
    else CountNamed(entries[..|entries| - 1], name) + (if entries[|entries| - 1].name == name then 1 else 0)
  }

  lemma WithoutOne<T>(entries: seq<Named<T>>, e: Named<T>, names: set<string>)
    ensures Without(entries + [e], names) == Without(entries, names) + (if e.name in names then [] else [e])
  {
    assert (entries + [e])[..|entries|] == entries;
  }

  lemma {:induction false} WithoutAppend<T>(a: seq<Named<T>>, b: seq<Named<T>>, names: set<string>)
    ensures Without(a + b, names) == Without(a, names) + Without(b, names)
  {
    if b == [] {
      assert a + b == a;
    } else {
      var front, last := b[..|b| - 1], b[|b| - 1];
      WithoutAppend(a, front, names);
      WithoutOne(a + front, last, names);
      assert a + b == a + front + [last];
    }
  }

  /** Dropping names twice drops them once. */
  lemma {:induction false} WithoutTwice<T>(entries: seq<Named<T>>, a: set<string>, b: set<string>)
    ensures Without(Without(entries, a), b) == Without(entries, a + b)
  {
    if entries == [] {
    } else {
      var front, last := entries[..|entries| - 1], entries[|entries| - 1];
      WithoutTwice(front, a, b);
      var kept := Without(front, a);
      if last.name in a {
        assert Without(entries, a) == kept;
      } else {
        assert (kept + [last])[..|kept + [last]| - 1] == kept;
      }
    }
  }

  lemma {:induction false} WithoutAll<T>(entries: seq<Named<T>>, names: set<string>)
    requires forall i :: 0 <= i < |entries| ==> entries[i].name in names
    ensures Without(entries, names) == []
  {
    if entries == [] {
    } else {
      WithoutAll(entries[..|entries| - 1], names);
    }
  }

  lemma {:induction false} NoneNamed<T>(entries: seq<Named<T>>, names: set<string>, name: string)
    requires name in names
    ensures CountNamed(Without(entries, names), name) == 0
  {
    if entries == [] {
    } else {
      var front, last := entries[..|entries| - 1], entries[|entries| - 1];
      NoneNamed(front, names, name);
      var kept := Without(front, names);
      if last.name in names {
        assert Without(entries, names) == kept;
      } else {
        assert (kept + [last])[..|kept + [last]| - 1] == kept;
      }
    }
  }

  lemma {:induction false} CountAppend<T>(a: seq<Named<T>>, b: seq<Named<T>>, name: string)
    ensures CountNamed(a + b, name) == CountNamed(a, name) + CountNamed(b, name)
  {
    if b == [] {
      assert a + b == a;
    } else {
      CountAppend(a, b[..|b| - 1], name);
      assert (a + b)[..|a + b| - 1] == a + b[..|b| - 1];
    }
  }

  /** Compacts a list to the entries with other names. */
  method RemoveNamed<T>(entries: seq<Named<T>>, names: set<string>) returns (kept: seq<Named<T>>)
    ensures kept == Without(entries, names)
  {
    kept := [];
    for i := 0 to |entries|
      invariant kept == Without(entries[..i], names)
    {
      assert entries[..i + 1][..i] == entries[..i];
      if entries[i].name !in names {
        kept := kept + [entries[i]];
      }
    }
    assert entries[..|entries|] == entries;
  }

  // ----- projecting a report -----

  /** Runs of white space become single spaces; none at the ends. */
  function Collapse(s: string, started: bool, gap: bool): string {
    if s == "" then ""
    else if IsSpace(s[0]) then Collapse(s[1..], started, true)
    else (if started && gap then " " else "") + [s[0]] + Collapse(s[1..], true, false)
  }

  function OneLine(s: string): string {
    Collapse(s, false, false)
  }

  function CleanCaveats(caveats: seq<string>): seq<Text> {
    if caveats == [] then []
    else
      var last := OneLine(caveats[|caveats| - 1]);
      CleanCaveats(caveats[..|caveats| - 1]) + (if last != "" then [Spelled(last)] else [])
  }

  function OpsOf(vms: seq<ReportVM>, name: string): u64 {
    if vms == [] then 0
    else
      var rest := OpsOf(vms[..|vms| - 1], name);
      if vms[|vms| - 1].name == name then Wrap(rest as int + vms[|vms| - 1].totalOps) else rest
  }

  function P95Of(vms: seq<ReportVM>, name: string): real {
    if vms == [] then 0.0
    else
      var rest, vm := P95Of(vms[..|vms| - 1], name), vms[|vms| - 1];
      if vm.name == name && vm.p95 > rest then vm.p95 else rest
  }

  function OrElse(s: string, otherwise: string): string {
    if s == "" then otherwise else s
  }

  function QualityOf(r: BlockReport): string {
    OrElse(Trim(r.quality), "unavailable")
  }

  predicate Usable(r: BlockReport) {
    r.available && r.totals.attributedOps > 0 && (QualityOf(r) == "available" || QualityOf(r) == "degraded")
  }

  function StatusOf(r: BlockReport): string {
    if r.available && !Usable(r) then
      (if r.totals.attributedOps == 0 then "no_attributed_events" else "attribution_unavailable")
    else OrElse(Trim(r.status), "unavailable")
  }

  function Window(window: string): string {
    if Trim(window) == "" then "existing_evidence_window" else window
  }

  function CaveatsOf(r: BlockReport, reused: bool): seq<Text> {
    CleanCaveats(r.caveats) + [ExperimentalCaveat] + (if reused then [ReusedCaveat] else [])
  }

  function Project(s: Contents, r: BlockReport, window: string): Attribution {
    var caveats := CaveatsOf(r, window != s.windowId);
    if Usable(r) then
      Attribution(true, StatusOf(r), window, QualityOf(r), r.header, r.totals,
                  OpsOf(r.vms, s.victim), P95Of(r.vms, s.victim), OpsOf(r.vms, s.suspect), P95Of(r.vms, s.suspect),
                  r.vms, caveats)
    else
      Attribution(false, StatusOf(r), window, QualityOf(r), r.header, NO_TOTALS, 0, 0.0, 0, 0.0, [], caveats)
  }

  method CollectCaveats(r: BlockReport, reused: bool) returns (caveats: seq<Text>)
    ensures caveats == CaveatsOf(r, reused)
  {
    caveats := [];
    for i := 0 to |r.caveats|
      invariant caveats == CleanCaveats(r.caveats[..i])
    {
      assert r.caveats[..i + 1][..i] == r.caveats[..i];
      var value := OneLine(r.caveats[i]);
      if value != "" {
        caveats := caveats + [Spelled(value)];
      }
    }
    assert r.caveats[..|r.caveats|] == r.caveats;
    caveats := caveats + [ExperimentalCaveat];
    if reused {
      caveats := caveats + [ReusedCaveat];
    }
  }

  /** The operations and the highest p95 latency of the VMs with a name. */
  method ActivityOf(vms: seq<ReportVM>, name: string) returns (ops: u64, p95: real)
    ensures ops == OpsOf(vms, name) && p95 == P95Of(vms, name)
  {
    ops, p95 := 0, 0.0;
    for i := 0 to |vms|
      invariant ops == OpsOf(vms[..i], name) && p95 == P95Of(vms[..i], name)
    {
      assert vms[..i + 1][..i] == vms[..i];
      if vms[i].name == name {
        ops := Wrap(ops as int + vms[i].totalOps);
        if vms[i].p95 > p95 {
          p95 := vms[i].p95;
        }
      }
    }
    assert vms[..|vms|] == vms;
  }

  method ProjectReport(s: Contents, r: BlockReport, window: string) returns (projected: Attribution)
    ensures projected == Project(s, r, window)
  {
    var quality := Trim(r.quality);
    if quality == "" {
      quality := "unavailable";
    }
    var status := Trim(r.status);
    if status == "" {
      status := "unavailable";
    }
    var available := r.available && r.totals.attributedOps > 0 && (quality == "available" || quality == "degraded");
    if r.available && !available {
      status := if r.totals.attributedOps == 0 then "no_attributed_events" else "attribution_unavailable";
    }
    var caveats := CollectCaveats(r, window != s.windowId);
    projected := Attribution(available, status, window, quality, r.header, NO_TOTALS, 0, 0.0, 0, 0.0, [], caveats);
    if available {
      var victimOps, victimP95 := ActivityOf(r.vms, s.victim);
      var suspectOps, suspectP95 := ActivityOf(r.vms, s.suspect);
      projected := projected.(totals := r.totals, victimOps := victimOps, victimP95 := victimP95,
                              suspectOps := suspectOps, suspectP95 := suspectP95, vms := r.vms);
    }
  }

  // ----- what applying a report does -----

  function SectionState(a: Attribution): Evidence {
    if a.available && a.quality == "available" then Measured
    else if a.available && a.quality == "degraded" then Partial else Unavailable
  }

  function SectionDetail(a: Attribution): Text {
    if a.available && a.quality == "available" then NoDetail
    else if a.available && a.quality == "degraded" then DegradedDetail
    else CollectorStatus(a.status)
  }

  predicate IsUnavailable(state: Evidence) {
    !state.Measured? && !state.Derived?
  }

  function NewSection(d: SectionQuality): Named<SectionQuality> {
    Named(SECTION, d)
  }

  function NewUnavailable(d: SectionQuality): seq<Named<Reason>> {
    if IsUnavailable(d.state) then [Named(SECTION, Reason(d.state, d.error))] else []
  }

  /** The state, source and detail of the attribution section. */
  function Description(attribution: Option<Attribution>): SectionQuality {
    match attribution
    case None => SectionQuality(Disabled, LatencySource, NotRequested)
    case Some(a) => SectionQuality(SectionState(a), WindowSource(a.sourceWindow), SectionDetail(a))
  }

  function NewCorrelations(attribution: Option<Attribution>, suspect: string): seq<Named<Correlation>> {
    var available := attribution.Some? && attribution.value.available;
    var suspectIO := available && suspect != "-" && attribution.value.suspectOps > 0;
    [Named(HOST_CORRELATION,
           Correlation(available && attribution.value.totals.hostTotalOps > 0, Info, HostExplanation)),
     Named(VM_CORRELATION, Correlation(available, Info, VMExplanation)),
     Named(SUSPECT_CORRELATION, Correlation(suspectIO, if suspectIO then Warning else Info, SuspectExplanation))]
  }

  predicate IsBase(name: string) {
    name == "host_status" || name == "vm_status" || name == "qemu_evidence" || name == "storage_topology"
  }

  /** Some base section has evidence. */
  predicate BaseAvailable(sections: seq<Named<SectionQuality>>) {
    exists i :: 0 <= i < |sections| && IsBase(sections[i].name)
                && (sections[i].content.state.Measured? || sections[i].content.state.Derived?
                    || sections[i].content.state.Partial?)
  }

  /** Some section is partial or failed, or a base section is unavailable. */
  predicate Degraded(sections: seq<Named<SectionQuality>>) {
    exists i :: 0 <= i < |sections|
                && (sections[i].content.state.Partial? || sections[i].content.state.ErrorState?
                    || (IsBase(sections[i].name) && sections[i].content.state.Unavailable?))
  }

  function Overall(sections: seq<Named<SectionQuality>>): Evidence {
    if !BaseAvailable(sections) then Unavailable else if Degraded(sections) then Partial else Measured
  }

  /** The snapshot with one attribution in place of whatever was there. */
  function Replaced(s: Contents, attribution: Option<Attribution>): Contents {
    var d := Description(attribution);
    var sections := Without(s.sections, OWN_SECTIONS) + [NewSection(d)];
    s.(sections := sections,
       unavailable := Without(s.unavailable, OWN_SECTIONS) + NewUnavailable(d),
       correlations := Without(s.correlations, OWN_CORRELATIONS) + NewCorrelations(attribution, s.suspect),
       overall := Overall(sections),
       attribution := attribution)
  }

  function AttributionOf(s: Contents, report: Option<BlockReport>, sourceWindow: string): Option<Attribution> {
    if report.None? then None else Some(Project(s, report.value, Window(sourceWindow)))
  }

  function Applied(s: Contents, report: Option<BlockReport>, sourceWindow: string): Contents {
    Replaced(s, AttributionOf(s, report, sourceWindow))
  }

  method Describe(projected: Attribution, window: string) returns (d: SectionQuality)
    requires projected.sourceWindow == window
    ensures d == Description(Some(projected))
  {
    var state, detail := Unavailable, CollectorStatus(projected.status);
    if projected.available && projected.quality == "available" {
      state, detail := Measured, NoDetail;
    } else if projected.available && projected.quality == "degraded" {
      state, detail := Partial, DegradedDetail;
    }
    d := SectionQuality(state, WindowSource(window), detail);
  }

  // ----- the snapshot -----

  class ObserveSnapshot {
    var sections: seq<Named<SectionQuality>>
    var unavailable: seq<Named<Reason>>
    var correlations: seq<Named<Correlation>>
    var overall: Evidence
    var attribution: Option<Attribution>
    const victim: string
    const suspect: string
    const windowId: string

    function Value(): Contents
      reads this
    {
      Contents(sections, unavailable, correlations, overall, attribution, victim, suspect, windowId)
    }

    constructor (c: Contents)
      ensures Value() == c
    {
      sections, unavailable, correlations := c.sections, c.unavailable, c.correlations;
      overall, attribution := c.overall, c.attribution;
      victim, suspect, windowId := c.victim, c.suspect, c.windowId;
    }

    method RemoveEvidenceSection(name: string)
      modifies this`sections, this`unavailable
      ensures sections == Without(old(sections), {name}) && unavailable == Without(old(unavailable), {name})
    {
      sections := RemoveNamed(sections, {name});
      unavailable := RemoveNamed(unavailable, {name});
    }

    method RemoveOwnSections()
      modifies this`sections, this`unavailable
      ensures sections == Without(old(sections), OWN_SECTIONS) && unavailable == Without(old(unavailable), OWN_SECTIONS)
    {
      RemoveEvidenceSection(LEGACY);
      RemoveEvidenceSection(SECTION);
      WithoutTwice(old(sections), {LEGACY}, {SECTION});
      WithoutTwice(old(unavailable), {LEGACY}, {SECTION});
      assert {LEGACY} + {SECTION} == OWN_SECTIONS;
    }

    method AddSection(d: SectionQuality)
      modifies this`sections, this`unavailable
      ensures sections == old(sections) + [NewSection(d)] && unavailable == old(unavailable) + NewUnavailable(d)
    {
      sections := sections + [Named(SECTION, d)];
      if d.state == Unavailable || d.state == Partial || d.state == Disabled || d.state == NotConfigured
         || d.state == Unsupported || d.state == ErrorState {
        unavailable := unavailable + [Named(SECTION, Reason(d.state, d.error))];
      }
    }

    method UpsertCorrelations()
      modifies this`correlations
      ensures correlations == Without(old(correlations), OWN_CORRELATIONS) + NewCorrelations(attribution, suspect)
    {
      correlations := RemoveNamed(correlations, OWN_CORRELATIONS);
      correlations := correlations + NewCorrelations(attribution, suspect);
    }

    method FinalizeQuality()
      modifies this`overall
      ensures overall == Overall(sections)
    {
      var result, baseAvailable := Measured, false;
      for i := 0 to |sections|
        invariant baseAvailable <==> BaseAvailable(sections[..i])
        invariant result == if Degraded(sections[..i]) then Partial else Measured
      {
        var section := sections[i];
        OneMoreSection(sections, i);
        if IsBase(section.name) {
          if section.content.state == Measured || section.content.state == Derived || section.content.state == Partial {
            baseAvailable := true;
          }
          if section.content.state == Unavailable || section.content.state == ErrorState {
            result := Partial;
          }
        }
        if section.content.state == Partial || section.content.state == ErrorState {
          result := Partial;
        }
      }
      assert sections[..|sections|] == sections;
      if !baseAvailable {
        result := Unavailable;
      }
      overall := result;
    }

    /** Puts the attribution, its section and its correlations into a cleared snapshot. */
    method Record(projected: Option<Attribution>, d: SectionQuality)
      modifies this
      ensures sections == old(sections) + [NewSection(d)] && unavailable == old(unavailable) + NewUnavailable(d)
      ensures correlations == Without(old(correlations), OWN_CORRELATIONS) + NewCorrelations(projected, suspect)
      ensures overall == Overall(sections) && attribution == projected
    {
      attribution := projected;
      AddSection(d);
      UpsertCorrelations();
      FinalizeQuality();
    }

    method ApplyEBPFVMAttribution(report: Option<BlockReport>, sourceWindow: string)
      modifies this
      ensures Value() == Applied(old(Value()), report, sourceWindow)
    {
      RemoveOwnSections();
      if report.None? {
        Record(None, SectionQuality(Disabled, LatencySource, NotRequested));
        return;
      }
      var window := sourceWindow;
      if Trim(window) == "" {
        window := "existing_evidence_window";
      }
      var projected := ProjectReport(Value(), report.value, window);
      var d := Describe(projected, window);
      Record(Some(projected), d);
    }
  }

  lemma OneMoreSection(sections: seq<Named<SectionQuality>>, i: nat)
    requires i < |sections|
    ensures BaseAvailable(sections[..i + 1]) <==> BaseAvailable(sections[..i]) || BaseAvailable([sections[i]])
    ensures Degraded(sections[..i + 1]) <==> Degraded(sections[..i]) || Degraded([sections[i]])
  {
    var front, last := sections[..i], [sections[i]];
    assert sections[..i + 1] == front + last;
    assert forall k :: 0 <= k < i ==> (front + last)[k] == front[k];
    assert (front + last)[i] == last[0];
  }

  // ----- what applying a report means -----

  /** The entries that are not the report's own survive, in order. */
  lemma UnrelatedSurvive(s: Contents, attribution: Option<Attribution>)
    ensures var t := Replaced(s, attribution);
            && Without(t.sections, OWN_SECTIONS) == Without(s.sections, OWN_SECTIONS)
            && Without(t.unavailable, OWN_SECTIONS) == Without(s.unavailable, OWN_SECTIONS)
            && Without(t.correlations, OWN_CORRELATIONS) == Without(s.correlations, OWN_CORRELATIONS)
            && t.victim == s.victim && t.suspect == s.suspect && t.windowId == s.windowId
  {
    var d := Description(attribution);
    OthersKept(s.sections, [NewSection(d)], OWN_SECTIONS);
    OthersKept(s.unavailable, NewUnavailable(d), OWN_SECTIONS);
    NewNames(attribution, s.suspect);
    OthersKept(s.correlations, NewCorrelations(attribution, s.suspect), OWN_CORRELATIONS);
  }

  lemma NewNames(attribution: Option<Attribution>, suspect: string)
    ensures forall i :: 0 <= i < |NewCorrelations(attribution, suspect)| ==>
              NewCorrelations(attribution, suspect)[i].name in OWN_CORRELATIONS
  {
  }

  lemma OthersKept<T>(entries: seq<Named<T>>, own: seq<Named<T>>, names: set<string>)
    requires forall i :: 0 <= i < |own| ==> own[i].name in names
    ensures Without(Without(entries, names) + own, names) == Without(entries, names)
  {
    WithoutAppend(Without(entries, names), own, names);
    WithoutTwice(entries, names, names);
    WithoutAll(own, names);
    assert names + names == names;
  }

  lemma ReplacedTwice(s: Contents, first: Option<Attribution>, last: Option<Attribution>)
    ensures Replaced(Replaced(s, first), last) == Replaced(s, last)
  {
    UnrelatedSurvive(s, first);
  }

  /** Only the latest report counts: applying one after another is applying the last. In
      particular applying the same report again changes nothing. */
  lemma LastReportWins(s: Contents, first: Option<BlockReport>, w1: string, last: Option<BlockReport>, w2: string)
    ensures Applied(Applied(s, first, w1), last, w2) == Applied(s, last, w2)
  {
    var a, b := AttributionOf(s, first, w1), AttributionOf(s, last, w2);
    SameAttribution(s, Replaced(s, a), last, w2);
    ReplacedTwice(s, a, b);
  }

  /** An attribution depends on no more of a snapshot than its names and its window. */
  lemma SameAttribution(s: Contents, t: Contents, report: Option<BlockReport>, sourceWindow: string)
    requires t.victim == s.victim && t.suspect == s.suspect && t.windowId == s.windowId
    ensures AttributionOf(t, report, sourceWindow) == AttributionOf(s, report, sourceWindow)
  {
  }

  lemma OwnCount<T>(entries: seq<Named<T>>, own: seq<Named<T>>, names: set<string>, name: string)
    requires name in names
    ensures CountNamed(Without(entries, names) + own, name) == CountNamed(own, name)
  {
    CountAppend(Without(entries, names), own, name);
    NoneNamed(entries, names, name);
  }

  lemma CountOne<T>(entry: Named<T>, name: string)
    ensures CountNamed([entry], name) == if entry.name == name then 1 else 0
  {
    assert [entry][..0] == [];
  }

  lemma OwnSectionCounts(s: Contents, d: SectionQuality)
    ensures var sections := Without(s.sections, OWN_SECTIONS) + [NewSection(d)];
            CountNamed(sections, SECTION) == 1 && CountNamed(sections, LEGACY) == 0
    ensures var reasons := Without(s.unavailable, OWN_SECTIONS) + NewUnavailable(d);
            && CountNamed(reasons, SECTION) == (if IsUnavailable(d.state) then 1 else 0)
            && CountNamed(reasons, LEGACY) == 0
  {
    assert |LEGACY| == 12 && |SECTION| == 19;
    forall name | name in OWN_SECTIONS
      ensures CountNamed(Without(s.sections, OWN_SECTIONS) + [NewSection(d)], name) == if name == SECTION then 1 else 0
      ensures CountNamed(Without(s.unavailable, OWN_SECTIONS) + NewUnavailable(d), name)
              == if name == SECTION && IsUnavailable(d.state) then 1 else 0
    {
      OwnCount(s.sections, [NewSection(d)], OWN_SECTIONS, name);
      OwnCount(s.unavailable, NewUnavailable(d), OWN_SECTIONS, name);
      CountOne(NewSection(d), name);
      CountOne(Named(SECTION, Reason(d.state, d.error)), name);
    }
  }

  lemma ThreeCounts<T>(a: Named<T>, b: Named<T>, c: Named<T>, name: string)
    requires a.name != b.name && b.name != c.name && a.name != c.name
    requires name == a.name || name == b.name || name == c.name
    ensures CountNamed([a, b, c], name) == 1
  {
    assert [a, b, c] == [a] + ([b] + [c]);
    CountAppend([a], [b] + [c], name);
    CountAppend([b], [c], name);
    CountOne(a, name);
    CountOne(b, name);
    CountOne(c, name);
  }

  lemma OwnCorrelationCounts(s: Contents, attribution: Option<Attribution>)
    ensures forall name :: name in OWN_CORRELATIONS ==>
      CountNamed(Without(s.correlations, OWN_CORRELATIONS) + NewCorrelations(attribution, s.suspect), name) == 1
  {
    var own := NewCorrelations(attribution, s.suspect);
    assert |HOST_CORRELATION| == 30 && |VM_CORRELATION| == 29 && |SUSPECT_CORRELATION| == 33;
    forall name | name in OWN_CORRELATIONS
      ensures CountNamed(Without(s.correlations, OWN_CORRELATIONS) + own, name) == 1
    {
      OwnCount(s.correlations, own, OWN_CORRELATIONS, name);
      ThreeCounts(own[0], own[1], own[2], name);
      assert own == [own[0], own[1], own[2]];
    }
  }

  /** There is exactly one attribution section and no legacy one, a reason exactly when the
      section is not measured, and one of each of the three correlations; and the overall
      quality is that of the sections. */
  lemma ExactlyOneOfEach(s: Contents, attribution: Option<Attribution>)
    ensures var t := Replaced(s, attribution);
            && CountNamed(t.sections, "ebpf_vm_attribution") == 1 && CountNamed(t.sections, "ebpf_latency") == 0
            && CountNamed(t.unavailable, "ebpf_latency") == 0
            && CountNamed(t.unavailable, "ebpf_vm_attribution")
               == (if attribution.Some? && SectionState(attribution.value) == Measured then 0 else 1)
            && CountNamed(t.correlations, "host_storage_latency_available") == 1
            && CountNamed(t.correlations, "vm_ebpf_attribution_available") == 1
            && CountNamed(t.correlations, "suspect_vm_attributed_io_observed") == 1
            && t.overall == Overall(t.sections)
  {
    OwnSectionCounts(s, Description(attribution));
    OwnCorrelationCounts(s, attribution);
  }

  /** The section says what the projection says: it is measured or partial exactly when the
      report attributes operations with a usable quality. */
  lemma SectionAgrees(s: Contents, r: BlockReport, window: string)
    ensures var state := SectionState(Project(s, r, window));
            && (state == Measured <==> Usable(r) && QualityOf(r) == "available")
            && (state == Partial <==> Usable(r) && QualityOf(r) != "available")
            && (state == Unavailable <==> !Usable(r))
  {
    assert |"available"| != |"degraded"|;
  }

  // ----- what a snapshot says about a report -----

  /** The report attributes operations, with a quality that can be used. */
  predicate Attributes(r: BlockReport) {
    r.available && r.totals.attributedOps > 0 && (Trim(r.quality) == "available" || Trim(r.quality) == "degraded")
  }

  lemma UsableIsAttributes(r: BlockReport)
    ensures Usable(r) <==> Attributes(r)
  {
    assert |"unavailable"| == 11 && |"available"| == 9 && |"degraded"| == 8;
  }

  /** No VM of a list but the one at i has its name. */
  ghost predicate OnlyOne(vms: seq<ReportVM>, i: nat) {
    i < |vms| && forall j: nat :: j < |vms| && vms[j].name == vms[i].name ==> j == i
  }

  lemma {:induction false} NoActivity(vms: seq<ReportVM>, name: string)
    requires forall j: nat :: j < |vms| ==> vms[j].name != name
    ensures OpsOf(vms, name) == 0 && P95Of(vms, name) == 0.0
  {
    if vms == [] {
    } else {
      NoActivity(vms[..|vms| - 1], name);
    }
  }

  lemma {:induction false} ActivityOfOne(vms: seq<ReportVM>, i: nat)
    requires OnlyOne(vms, i)
    ensures OpsOf(vms, vms[i].name) == vms[i].totalOps
    ensures P95Of(vms, vms[i].name) == if vms[i].p95 > 0.0 then vms[i].p95 else 0.0
  {
    var n := |vms| - 1;
    if i == n {
      NoActivity(vms[..n], vms[n].name);
      SmallWrap(vms[n].totalOps);
    } else {
      assert vms[..n][i] == vms[i];
      ActivityOfOne(vms[..n], i);
    }
  }

  /** The victim's figures are those of the VM with the victim's name, and the suspect's of
      the one with the suspect's. */
  lemma FiguresAreTheirs(s: Contents, r: BlockReport, window: string, i: nat)
    requires Attributes(r) && OnlyOne(r.vms, i)
    ensures var a, vm := Project(s, r, window), r.vms[i];
            && (vm.name == s.victim ==>
                  a.victimOps == vm.totalOps && a.victimP95 == if vm.p95 > 0.0 then vm.p95 else 0.0)
            && (vm.name == s.suspect ==>
                  a.suspectOps == vm.totalOps && a.suspectP95 == if vm.p95 > 0.0 then vm.p95 else 0.0)
  {
    UsableIsAttributes(r);
    ActivityOfOne(r.vms, i);
  }

  /** An attribution has the report's figures and VMs exactly when the report attributes;
      its status says why it does not. */
  lemma ProjectionSays(s: Contents, r: BlockReport, window: string)
    ensures var a := Project(s, r, window);
            && (a.available <==> Attributes(r)) && a.sourceWindow == window && a.header == r.header
            && a.quality == (if Trim(r.quality) == "" then "unavailable" else Trim(r.quality))
            && (if Attributes(r) then a.totals == r.totals && a.vms == r.vms
                else
                  && a.totals == Totals(0, 0, 0.0, 0.0, 0, 0, 0.0) && a.vms == []
                  && a.victimOps == a.suspectOps == 0 && a.victimP95 == a.suspectP95 == 0.0)
            && (r.available && !Attributes(r) && r.totals.attributedOps == 0 ==> a.status == "no_attributed_events")
            && (r.available && !Attributes(r) && r.totals.attributedOps > 0 ==> a.status == "attribution_unavailable")
            && (Attributes(r) || !r.available ==>
                  a.status == if Trim(r.status) == "" then "unavailable" else Trim(r.status))
            && (ReusedCaveat in a.caveats <==> window != s.windowId) && ExperimentalCaveat in a.caveats
  {
    UsableIsAttributes(r);
    CleanIsSpelled(r.caveats);
    var caveats := CleanCaveats(r.caveats);
    assert (caveats + [ExperimentalCaveat])[|caveats|] == ExperimentalCaveat;
    if window != s.windowId {
      assert (caveats + [ExperimentalCaveat] + [ReusedCaveat])[|caveats| + 1] == ReusedCaveat;
    }
  }

  /** The report's caveats are kept, each on one line and none that is blank. */
  lemma CaveatsSay(s: Contents, r: BlockReport, window: string)
    ensures forall x :: Spelled(x) in Project(s, r, window).caveats
                        <==> x != "" && exists c :: c in r.caveats && x == Joined(Fields(c))
  {
    CleanIsSpelled(r.caveats);
    var clean, all := CleanCaveats(r.caveats), Project(s, r, window).caveats;
    forall x
      ensures Spelled(x) in all <==> Spelled(x) in clean
    {
      assert all == clean + [ExperimentalCaveat] + (if window != s.windowId then [ReusedCaveat] else []);
    }
  }

  lemma {:induction false} CleanIsSpelled(caveats: seq<string>)
    ensures forall t :: t in CleanCaveats(caveats) ==> t.Spelled?
    ensures forall x :: Spelled(x) in CleanCaveats(caveats) <==> x != "" && exists c :: c in caveats && x == Joined(Fields(c))
  {
    if caveats == [] {
    } else {
      var front, last := caveats[..|caveats| - 1], caveats[|caveats| - 1];
      CleanIsSpelled(front);
      CollapseJoins(last, false);
      assert forall c :: c in caveats <==> c in front || c == last;
    }
  }

  // ----- one line -----

  /** The words of a text, between white space. */
  function Fields(s: string): (words: seq<string>)
    ensures s != "" && !IsSpace(s[0]) ==> words != []
  {
    if s == "" then []
    else if IsSpace(s[0]) then Fields(s[1..])
    else if |s| == 1 || IsSpace(s[1]) then [[s[0]]] + Fields(s[1..])
    else
      var rest := Fields(s[1..]);
      [[s[0]] + rest[0]] + rest[1..]
  }

  /** Words with one space between them. */
  function Joined(words: seq<string>): string {
    if words == [] then "" else if |words| == 1 then words[0] else words[0] + " " + Joined(words[1..])
  }

  lemma JoinNext(word: string, rest: seq<string>)
    ensures Joined([word] + rest) == if rest == [] then word else word + " " + Joined(rest)
  {
    assert ([word] + rest)[1..] == rest;
  }

  lemma JoinLonger(c: char, rest: seq<string>)
    requires rest != []
    ensures Joined([[c] + rest[0]] + rest[1..]) == [c] + Joined(rest)
  {
    assert rest == [rest[0]] + rest[1..];
    JoinNext([c] + rest[0], rest[1..]);
    JoinNext(rest[0], rest[1..]);
  }

  /** What follows a started line: nothing, or the words, after a space where there was one. */
  function After(s: string, words: seq<string>, gap: bool): string {
    if s == "" || words == [] then "" else (if gap || IsSpace(s[0]) then " " else "") + Joined(words)
  }

  lemma JoinedFirst(s: string)
    requires s != "" && !IsSpace(s[0])
    ensures var rest := Fields(s[1..]);
            Fields(s) != [] && Joined(Fields(s)) == [s[0]] + After(s[1..], rest, false)
  {
    FirstJoined(s[0], Fields(s[1..]), |s| == 1 || IsSpace(s[1]));
  }

  /** A first character, its own word before white space and part of the next one otherwise. */
  lemma FirstJoined(c: char, rest: seq<string>, space: bool)
    requires rest == [] ==> space
    ensures Joined(if space then [[c]] + rest else [[c] + rest[0]] + rest[1..])
            == [c] + if rest == [] then "" else (if space then " " else "") + Joined(rest)
  {
    if space {
      JoinNext([c], rest);
    } else {
      JoinLonger(c, rest);
    }
  }

  lemma CollapseNext(s: string, started: bool, gap: bool)
    requires s != "" && !IsSpace(s[0])
    ensures Collapse(s, started, gap) == (if started && gap then " " else "") + ([s[0]] + Collapse(s[1..], true, false))
  {
  }

  /** A text on one line is its words with one space between them. */
  lemma {:induction false} CollapseJoins(s: string, gap: bool)
    ensures Collapse(s, false, gap) == Joined(Fields(s))
    ensures Collapse(s, true, gap) == After(s, Fields(s), gap)
  {
    if s == "" {
    } else if IsSpace(s[0]) {
      CollapseJoins(s[1..], true);
      assert s[1..] == "" ==> Fields(s[1..]) == [];
    } else {
      CollapseJoins(s[1..], false);
      JoinedFirst(s);
      CollapseNext(s, false, gap);
      CollapseNext(s, true, gap);
    }
  }

  /** Some entry of this name is present. */
  ghost predicate Present(list: seq<Named<Correlation>>, name: string) {
    exists i: nat :: i < |list| && list[i].name == name && list[i].content.present
  }

  lemma {:induction false} WithoutHasNone<T>(entries: seq<Named<T>>, names: set<string>)
    ensures forall i: nat :: i < |Without(entries, names)| ==> Without(entries, names)[i].name !in names
  {
    if entries == [] {
    } else {
      WithoutHasNone(entries[..|entries| - 1], names);
    }
  }

  lemma PresentAfter(others: seq<Named<Correlation>>, own: seq<Named<Correlation>>, name: string)
    requires forall i: nat :: i < |others| ==> others[i].name != name
    ensures Present(others + own, name) <==> Present(own, name)
  {
    if Present(own, name) {
      var i: nat :| i < |own| && own[i].name == name && own[i].content.present;
      assert (others + own)[|others| + i] == own[i];
    }
  }

  lemma PresentOfThree(a: Named<Correlation>, b: Named<Correlation>, c: Named<Correlation>)
    requires a.name != b.name && b.name != c.name && a.name != c.name
    ensures Present([a, b, c], a.name) <==> a.content.present
    ensures Present([a, b, c], b.name) <==> b.content.present
    ensures Present([a, b, c], c.name) <==> c.content.present
  {
    var list := [a, b, c];
    assert list[0] == a && list[1] == b && list[2] == c;
  }

  lemma NewArePresent(attribution: Option<Attribution>, suspect: string)
    ensures var own, available := NewCorrelations(attribution, suspect), attribution.Some? && attribution.value.available;
            && (Present(own, HOST_CORRELATION) <==> available && attribution.value.totals.hostTotalOps > 0)
            && (Present(own, VM_CORRELATION) <==> available)
            && (Present(own, SUSPECT_CORRELATION) <==> available && suspect != "-" && attribution.value.suspectOps > 0)
  {
    assert |HOST_CORRELATION| == 30 && |VM_CORRELATION| == 29 && |SUSPECT_CORRELATION| == 33;
    var own := NewCorrelations(attribution, suspect);
    PresentOfThree(own[0], own[1], own[2]);
    assert own == [own[0], own[1], own[2]];
  }

  /** After applying a report, each correlation is present exactly when the report says so:
      host latency with attributed and host operations, attribution with attributed
      operations, and the suspect's activity with operations of the named suspect. */
  lemma CorrelationsSay(s: Contents, report: Option<BlockReport>, sourceWindow: string)
    ensures var t, attributes := Applied(s, report, sourceWindow), report.Some? && Attributes(report.value);
            && (Present(t.correlations, "host_storage_latency_available")
                <==> attributes && report.value.totals.hostTotalOps > 0)
            && (Present(t.correlations, "vm_ebpf_attribution_available") <==> attributes)
            && (Present(t.correlations, "suspect_vm_attributed_io_observed")
                <==> attributes && s.suspect != "-" && OpsOf(report.value.vms, s.suspect) > 0)
  {
    var t := Applied(s, report, sourceWindow);
    if report.Some? { UsableIsAttributes(report.value); }
    WithoutHasNone(s.correlations, OWN_CORRELATIONS);
    var others, own := Without(s.correlations, OWN_CORRELATIONS), NewCorrelations(t.attribution, s.suspect);
    assert t.correlations == others + own;
    PresentAfter(others, own, HOST_CORRELATION);
    PresentAfter(others, own, VM_CORRELATION);
    PresentAfter(others, own, SUSPECT_CORRELATION);
    NewArePresent(t.attribution, s.suspect);
  }

  /** The suspect's correlation is a warning exactly when it is present. */
  lemma SuspectWarns(s: Contents, attribution: Option<Attribution>, x: Named<Correlation>)
    requires x in Replaced(s, attribution).correlations && x.name == "suspect_vm_attributed_io_observed"
    ensures x.content.severity == if x.content.present then Warning else Info
  {
    assert |HOST_CORRELATION| == 30 && |VM_CORRELATION| == 29 && |SUSPECT_CORRELATION| == 33;
    WithoutHasNone(s.correlations, OWN_CORRELATIONS);
    var others, own := Without(s.correlations, OWN_CORRELATIONS), NewCorrelations(attribution, s.suspect);
    assert x in others + own && x !in others;
  }

  /** The section names the window it comes from, and says why it is not measured. */
  predicate TextsAgree(q: SectionQuality, a: Option<Attribution>) {
    if a.None? then q.source == LatencySource && q.error == NotRequested
    else
      && q.source == WindowSource(a.value.sourceWindow)
      && (q.state == Measured ==> q.error == NoDetail) && (q.state == Partial ==> q.error == DegradedDetail)
      && (q.state == Unavailable ==> q.error == CollectorStatus(a.value.status))
  }

  /** The section's state, source and detail in the report's own words. */
  lemma SectionSays(s: Contents, report: Option<BlockReport>, sourceWindow: string)
    ensures var t := Applied(s, report, sourceWindow);
            var section := t.sections[|t.sections| - 1];
            && t.sections != [] && section.name == "ebpf_vm_attribution"
            && (section.content.state == Disabled <==> report.None?)
            && (section.content.state == Measured
                <==> report.Some? && Attributes(report.value) && Trim(report.value.quality) == "available")
            && (section.content.state == Partial
                <==> report.Some? && Attributes(report.value) && Trim(report.value.quality) == "degraded")
            && (section.content.state == Unavailable <==> report.Some? && !Attributes(report.value))
            && TextsAgree(section.content, t.attribution)
            && t.attribution.Some? == report.Some?
            && (report.Some? ==>
                  t.attribution.value.sourceWindow
                  == if Trim(sourceWindow) == "" then "existing_evidence_window" else sourceWindow)
  {
    assert |"unavailable"| == 11 && |"available"| == 9 && |"degraded"| == 8;
    if report.Some? { UsableIsAttributes(report.value); }
  }

  /** The overall quality by the names of the base sections. */
  lemma OverallByName(sections: seq<Named<SectionQuality>>)
    ensures var bases := {"host_status", "vm_status", "qemu_evidence", "storage_topology"};
            && (Overall(sections) == Unavailable <==>
                  forall x :: x in sections && x.name in bases ==>
                    x.content.state != Measured && x.content.state != Derived && x.content.state != Partial)
            && (Overall(sections) == Measured ==>
                  forall x :: x in sections ==>
                    && x.content.state != Partial && x.content.state != ErrorState
                    && (x.name in bases ==> x.content.state != Unavailable))
            && (Overall(sections) == Partial ==>
                  exists x :: x in sections
                    && (x.content.state == Partial || x.content.state == ErrorState
                        || (x.name in bases && x.content.state == Unavailable)))
            && (Overall(sections) == Unavailable || Overall(sections) == Measured || Overall(sections) == Partial)
  {
    if Degraded(sections) {
      var i :| 0 <= i < |sections|
               && (sections[i].content.state.Partial? || sections[i].content.state.ErrorState?
                   || (IsBase(sections[i].name) && sections[i].content.state.Unavailable?));
      assert sections[i] in sections;
    }
    if BaseAvailable(sections) {
      var i :| 0 <= i < |sections| && IsBase(sections[i].name)
               && (sections[i].content.state.Measured? || sections[i].content.state.Derived?
                   || sections[i].content.state.Partial?);
      assert sections[i] in sections;
    }
  }
}
