/** Ranking the VMs that share a victim's storage, and selecting at most one suspect. */
module Discovery {
  import opened Words
  import opened Sorting
  import opened Logs

  /** The write activity sampled for one VM. */
  datatype Summary = Summary(
    available: bool, averageWrite: real, maxWrite: real, averageSyscw: real, maxSyscw: real, idleReason: string)

  datatype Score = Low | Medium | High

  datatype Candidate = Candidate(name: string, summary: Summary, score: Score, reason: string)

  /** Thresholds as they are configured. */
  datatype Configured = Configured(writeRate: real, syscallRate: real, dominanceRatio: real)

  const DEFAULTS := Configured(10.0, 10_000.0, 2.0)

  type Thresholds = t: Configured | t.writeRate > 0.0 && t.syscallRate > 0.0 && t.dominanceRatio >= 1.0
    witness Configured(1.0, 1.0, 1.0)

  /** A threshold that cannot be used is replaced by its default. */
  function EffectiveThresholds(t: Configured): Thresholds {
    Configured(
      if t.writeRate <= 0.0 then DEFAULTS.writeRate else t.writeRate,
      if t.syscallRate <= 0.0 then DEFAULTS.syscallRate else t.syscallRate,
      if t.dominanceRatio < 1.0 then DEFAULTS.dominanceRatio else t.dominanceRatio)
  }

  const NEAR_ZERO_WRITE: real := 0.01
  const NEAR_ZERO_SYSCALLS: real := 1.0

  datatype Metric = Bytes | Syscalls

  function Rate(metric: Metric, s: Summary): real {
    if metric == Bytes then s.averageWrite else s.averageSyscw
  }

  function Peak(metric: Metric, s: Summary): real {
    if metric == Bytes then s.maxWrite else s.maxSyscw
  }

  function Meaningful(t: Thresholds, metric: Metric): real {
    if metric == Bytes then t.writeRate else t.syscallRate
  }

  function NearZero(metric: Metric): (r: real)
    ensures r > 0.0
  {
    if metric == Bytes then NEAR_ZERO_WRITE else NEAR_ZERO_SYSCALLS
  }

  predicate Eligible(t: Thresholds, metric: Metric, s: Summary) {
    s.available && Rate(metric, s) >= Meaningful(t, metric)
  }

  predicate Dominant(t: Thresholds, metric: Metric, comparison: real, rate: real) {
    && rate >= Meaningful(t, metric)
    && (comparison <= NearZero(metric) || (comparison > 0.0 && rate / comparison >= t.dominanceRatio))
  }

  // ----- orders -----

  /** Highest first: by a metric's rate and peak, or by score and both rates; then by name. */
  datatype Order = ByMetric(metric: Metric) | ByScore

  function ScoreRank(s: Score): real {
    match s
    case High => 3.0
    case Medium => 2.0
    case Low => 1.0
  }

  function Key(order: Order, c: Candidate): (real, real, real) {
    match order
    case ByMetric(metric) => (Rate(metric, c.summary), Peak(metric, c.summary), 0.0)
    case ByScore => (ScoreRank(c.score), c.summary.averageWrite, c.summary.averageSyscw)
  }

  predicate Before(order: Order, a: Candidate, b: Candidate) {
    var x, y := Key(order, a), Key(order, b);
    if x.0 != y.0 then x.0 > y.0
    else if x.1 != y.1 then x.1 > y.1
    else if x.2 != y.2 then x.2 > y.2
    else Less(a.name, b.name)
  }

  function InsertBy(order: Order, c: Candidate, s: seq<Candidate>): seq<Candidate> {
    if s == [] || Before(order, c, s[0]) then [c] + s else [s[0]] + InsertBy(order, c, s[1..])
  }

  function SortBy(order: Order, s: seq<Candidate>): seq<Candidate> {
    if s == [] then [] else InsertBy(order, s[0], SortBy(order, s[1..]))
  }

  ghost predicate Ranked(order: Order, s: seq<Candidate>) {
    forall i, j :: 0 <= i < j < |s| ==> Before(order, s[i], s[j])
  }

  ghost predicate DistinctNames(s: seq<Candidate>) {
    forall i, j :: 0 <= i < j < |s| ==> s[i].name != s[j].name
  }

  lemma BeforeOrder(order: Order, a: Candidate, b: Candidate)
    ensures a.name != b.name ==> (Before(order, a, b) <==> !Before(order, b, a))
    ensures !Before(order, a, a)
  {
    LessTotal(a.name, b.name);
    Irreflexive(a.name);
  }

  lemma BeforeTransitive(order: Order, a: Candidate, b: Candidate, c: Candidate)
    requires Before(order, a, b) && Before(order, b, c)
    ensures Before(order, a, c)
  {
    if Less(a.name, b.name) && Less(b.name, c.name) { LessTransitive(a.name, b.name, c.name); }
  }

  lemma RankedWith(order: Order, c: Candidate, s: seq<Candidate>)
    requires Ranked(order, s) && forall j :: 0 <= j < |s| ==> Before(order, c, s[j])
    ensures Ranked(order, [c] + s)
  {
  }

  lemma BeforeAll(order: Order, c: Candidate, s: seq<Candidate>)
    requires Ranked(order, s) && (s != [] ==> Before(order, c, s[0]))
    ensures forall j :: 0 <= j < |s| ==> Before(order, c, s[j])
  {
    forall j | 0 <= j < |s|
      ensures Before(order, c, s[j])
    {
      if j > 0 { BeforeTransitive(order, c, s[0], s[j]); }
    }
  }

  lemma {:induction false} InsertMembers(order: Order, c: Candidate, s: seq<Candidate>)
    ensures multiset(InsertBy(order, c, s)) == multiset(s) + multiset{c}
  {
    if s == [] || Before(order, c, s[0]) {
    } else {
      InsertMembers(order, c, s[1..]);
      assert s == [s[0]] + s[1..];
    }
  }

  lemma {:induction false} InsertRanks(order: Order, c: Candidate, s: seq<Candidate>)
    requires Ranked(order, s) && forall i :: 0 <= i < |s| ==> s[i].name != c.name
    ensures Ranked(order, InsertBy(order, c, s))
  {
    if s == [] || Before(order, c, s[0]) {
      BeforeAll(order, c, s);
      RankedWith(order, c, s);
    } else {
      var rest := InsertBy(order, c, s[1..]);
      InsertRanks(order, c, s[1..]);
      InsertMembers(order, c, s[1..]);
      BeforeOrder(order, c, s[0]);
      forall j | 0 <= j < |rest|
        ensures Before(order, s[0], rest[j])
      {
        assert rest[j] in multiset(rest);
        assert rest[j] != c ==> rest[j] in s[1..];
      }
      RankedWith(order, s[0], rest);
    }
  }

  lemma {:induction false} SortMembers(order: Order, s: seq<Candidate>)
    ensures multiset(SortBy(order, s)) == multiset(s)
  {
    if s == [] {
    } else {
      SortMembers(order, s[1..]);
      InsertMembers(order, s[0], SortBy(order, s[1..]));
      assert s == [s[0]] + s[1..];
    }
  }

  lemma FirstIsNew(order: Order, s: seq<Candidate>)
    requires s != [] && DistinctNames(s)
    ensures var rest := SortBy(order, s[1..]); forall i :: 0 <= i < |rest| ==> rest[i].name != s[0].name
  {
    var rest := SortBy(order, s[1..]);
    SortMembers(order, s[1..]);
    forall i | 0 <= i < |rest|
      ensures rest[i].name != s[0].name
    {
      assert rest[i] in multiset(rest);
      assert rest[i] in s[1..];
    }
  }

  lemma {:induction false} SortRanks(order: Order, s: seq<Candidate>)
    requires DistinctNames(s)
    ensures Ranked(order, SortBy(order, s)) && multiset(SortBy(order, s)) == multiset(s)
  {
    SortMembers(order, s);
    if s == [] {
    } else {
      SortRanks(order, s[1..]);
      FirstIsNew(order, s);
      InsertRanks(order, s[0], SortBy(order, s[1..]));
    }
  }

  lemma SameFirst(order: Order, s: seq<Candidate>, t: seq<Candidate>)
    requires Ranked(order, s) && Ranked(order, t) && multiset(s) == multiset(t) && s != [] && t != []
    ensures s[0] == t[0]
  {
    assert s[0] in multiset(t) && t[0] in multiset(s);
    var i :| 0 <= i < |s| && s[i] == t[0];
    var j :| 0 <= j < |t| && t[j] == s[0];
    if i > 0 && j > 0 {
      BeforeTransitive(order, s[0], t[0], s[0]);
      BeforeOrder(order, s[0], s[0]);
    }
  }

  lemma TailOf<T>(s: seq<T>)
    requires s != []
    ensures multiset(s) == multiset(s[1..]) + multiset{s[0]}
  {
    assert s == [s[0]] + s[1..];
  }

  /** A ranking is determined by the candidates. */
  lemma {:induction false} RankingUnique(order: Order, s: seq<Candidate>, t: seq<Candidate>)
    requires Ranked(order, s) && Ranked(order, t) && multiset(s) == multiset(t)
    ensures s == t
  {
    if s == [] {
      assert |multiset(t)| == 0;
    } else {
      assert |multiset(t)| == |multiset(s)| > 0;
      SameFirst(order, s, t);
      TailOf(s);
      TailOf(t);
      Cancel(multiset(s[1..]), multiset(t[1..]), multiset{s[0]});
      RankingUnique(order, s[1..], t[1..]);
      assert s == [s[0]] + s[1..] && t == [t[0]] + t[1..];
    }
  }

  lemma {:induction false} DistinctPermuted(s: seq<Candidate>, t: seq<Candidate>)
    requires DistinctNames(s) && multiset(s) == multiset(t)
    ensures DistinctNames(t)
    decreases |s|
  {
    if t == [] {
    } else {
      var i := SharedElement(t, s);
      var n := |t| - 1;
      var rest := s[..i] + s[i + 1..];
      assert DistinctNames(rest);
      DistinctPermuted(rest, t[..n]);
      forall k | 0 <= k < n
        ensures t[k].name != t[n].name
      {
        assert t[..n][k] in multiset(t[..n]);
        assert t[k] in rest;
      }
    }
  }

  /** Sorting gives the same ranking for every order of the candidates. */
  lemma SortCanonical(order: Order, s: seq<Candidate>, t: seq<Candidate>)
    requires DistinctNames(s) && multiset(s) == multiset(t)
    ensures SortBy(order, s) == SortBy(order, t)
  {
    DistinctPermuted(s, t);
    SortRanks(order, s);
    SortRanks(order, t);
    RankingUnique(order, SortBy(order, s), SortBy(order, t));
  }

  // ----- selecting -----

  /** The candidates eligible by a metric, in their order. */
  function EligibleOf(t: Thresholds, metric: Metric, s: seq<Candidate>): seq<Candidate> {
    if s == [] then []
    else EligibleOf(t, metric, s[..|s| - 1])
         + (if Eligible(t, metric, s[|s| - 1].summary) then [s[|s| - 1]] else [])
  }

  function RankedEligible(t: Thresholds, metric: Metric, s: seq<Candidate>): seq<Candidate> {
    SortBy(ByMetric(metric), EligibleOf(t, metric, s))
  }

  method RankedCandidates(t: Thresholds, metric: Metric, candidates: seq<Candidate>) returns (ranked: seq<Candidate>)
    ensures ranked == RankedEligible(t, metric, candidates)
  {
    ranked := [];
    for i := 0 to |candidates|
      invariant ranked == EligibleOf(t, metric, candidates[..i])
    {
      assert candidates[..i + 1][..i] == candidates[..i];
      if Eligible(t, metric, candidates[i].summary) {
        ranked := ranked + [candidates[i]];
      }
    }
    assert candidates[..|candidates|] == candidates;
    ranked := SortBy(ByMetric(metric), ranked);
  }

  function Higher(a: real, b: real): real {
    if b > a then b else a
  }

  /** One more candidate that competes, unless it is unavailable or the one left out. */
  function Compete(metric: Metric, comparison: real, c: Candidate, except: string): real {
    if c.name == except || !c.summary.available then comparison else Higher(comparison, Rate(metric, c.summary))
  }

  /** The highest rate of the victim and of the available candidates other than one. */
  function Competing(metric: Metric, victim: Summary, s: seq<Candidate>, except: string): real {
    if s == [] then (if victim.available then Rate(metric, victim) else 0.0)
    else Compete(metric, Competing(metric, victim, s[..|s| - 1], except), s[|s| - 1], except)
  }

  method CompetingRate(metric: Metric, victim: Summary, candidates: seq<Candidate>, except: string)
    returns (comparison: real)
    ensures comparison == Competing(metric, victim, candidates, except)
  {
    comparison := 0.0;
    if victim.available {
      comparison := Rate(metric, victim);
    }
    for i := 0 to |candidates|
      invariant comparison == Competing(metric, victim, candidates[..i], except)
    {
      assert candidates[..i + 1][..i] == candidates[..i];
      var candidate := candidates[i];
      if candidate.name == except || !candidate.summary.available {
        continue;
      }
      var value := Rate(metric, candidate.summary);
      if value > comparison {
        comparison := value;
      }
    }
    assert candidates[..|candidates|] == candidates;
  }

  /** The selected name and why; no name when nothing dominates. */
  datatype Selection = Selection(name: string, reason: string)

  const NOTHING := Selection("", "")

  function Reason(metric: Metric): string {
    if metric == Bytes then "dominant byte write rate" else "dominant syscall pressure"
  }

  /** The first of the ranking, when it dominates everything else. */
  function SelectBy(t: Thresholds, metric: Metric, victim: Summary, s: seq<Candidate>): Selection
    requires RankedEligible(t, metric, s) != []
  {
    var first := RankedEligible(t, metric, s)[0];
    if Dominant(t, metric, Competing(metric, victim, s, first.name), Rate(metric, first.summary))
    then Selection(first.name, Reason(metric)) else NOTHING
  }

  /** Bytes decide when any candidate writes a meaningful rate; otherwise system calls. */
  function Select(t: Thresholds, victim: Summary, s: seq<Candidate>): Selection {
    if RankedEligible(t, Bytes, s) != [] then SelectBy(t, Bytes, victim, s)
    else if RankedEligible(t, Syscalls, s) != [] then SelectBy(t, Syscalls, victim, s)
    else NOTHING
  }

  method SelectCandidate(t: Thresholds, victim: Summary, candidates: seq<Candidate>) returns (r: Selection)
    ensures r == Select(t, victim, candidates)
  {
    var byteCandidates := RankedCandidates(t, Bytes, candidates);
    if |byteCandidates| > 0 {
      var first := byteCandidates[0];
      var comparison := CompetingRate(Bytes, victim, candidates, first.name);
      if Dominant(t, Bytes, comparison, first.summary.averageWrite) {
        return Selection(first.name, "dominant byte write rate");
      }
      return NOTHING;
    }
    var syscallCandidates := RankedCandidates(t, Syscalls, candidates);
    if |syscallCandidates| > 0 {
      var first := syscallCandidates[0];
      var comparison := CompetingRate(Syscalls, victim, candidates, first.name);
      if Dominant(t, Syscalls, comparison, first.summary.averageSyscw) {
        return Selection(first.name, "dominant syscall pressure");
      }
    }
    return NOTHING;
  }

  // ----- the report -----

  /** A VM on the victim's storage, with what was sampled for it. */
  datatype Target = Target(name: string, summary: Summary)

  datatype Report = Report(candidates: seq<Candidate>, selected: Option<Candidate>, reason: string)

  function Fresh(target: Target): Candidate {
    Candidate(target.name, target.summary, Low,
              if target.summary.available then "idle" else target.summary.idleReason)
  }

  function FreshAll(targets: seq<Target>): seq<Candidate> {
    seq(|targets|, i requires 0 <= i < |targets| => Fresh(targets[i]))
  }

  function Scored(t: Thresholds, sel: Selection, c: Candidate): Candidate {
    if c.name == sel.name then c.(score := High, reason := sel.reason)
    else if Eligible(t, Bytes, c.summary) then c.(score := Medium, reason := "write activity, not dominant")
    else if Eligible(t, Syscalls, c.summary) then c.(score := Medium, reason := "syscall pressure, not dominant")
    else c
  }

  function ScoredAll(t: Thresholds, sel: Selection, s: seq<Candidate>): seq<Candidate> {
    seq(|s|, i requires 0 <= i < |s| => Scored(t, sel, s[i]))
  }

  function FirstNamed(s: seq<Candidate>, name: string): Option<Candidate> {
    if s == [] then None else if s[0].name == name then Some(s[0]) else FirstNamed(s[1..], name)
  }

  function Analysis(t: Thresholds, victim: Summary, s: seq<Candidate>): Report {
    var sel := Select(t, victim, s);
    var ranking := SortBy(ByScore, ScoredAll(t, sel, s));
    var selected := FirstNamed(ranking, sel.name);
    Report(ranking, selected, if selected.Some? then sel.reason else "no dominant writer observed")
  }

  method Analyze(configured: Configured, victim: Summary, targets: seq<Target>) returns (report: Report)
    ensures report == Analysis(EffectiveThresholds(configured), victim, FreshAll(targets))
  {
    var t := EffectiveThresholds(configured);
    var candidates := [];
    for i := 0 to |targets|
      invariant |candidates| == i && forall j :: 0 <= j < i ==> candidates[j] == Fresh(targets[j])
    {
      candidates := candidates + [Fresh(targets[i])];
    }
    assert candidates == FreshAll(targets);
    var sel := SelectCandidate(t, victim, candidates);
    ghost var unscored := candidates;
    for i := 0 to |candidates|
      invariant |candidates| == |unscored|
      invariant forall j :: 0 <= j < i ==> candidates[j] == Scored(t, sel, unscored[j])
      invariant forall j :: i <= j < |candidates| ==> candidates[j] == unscored[j]
    {
      var candidate := candidates[i];
      if candidate.name == sel.name {
        candidate := candidate.(score := High, reason := sel.reason);
      } else if Eligible(t, Bytes, candidate.summary) {
        candidate := candidate.(score := Medium, reason := "write activity, not dominant");
      } else if Eligible(t, Syscalls, candidate.summary) {
        candidate := candidate.(score := Medium, reason := "syscall pressure, not dominant");
      }
      candidates := candidates[i := candidate];
    }
    assert candidates == ScoredAll(t, sel, unscored);
    candidates := SortBy(ByScore, candidates);
    report := Report(candidates, None, "no dominant writer observed");
    var index := 0;
    while index < |candidates|
      invariant 0 <= index <= |candidates|
      invariant FirstNamed(candidates[index..], sel.name) == FirstNamed(candidates, sel.name)
    {
      if candidates[index].name == sel.name {
        return Report(candidates, Some(candidates[index]), sel.reason);
      }
      index := index + 1;
    }
  }

  // ----- the ranking does not depend on the order of the input -----

  /** The eligible candidates, with multiplicity, are those of the list. */
  lemma {:induction false} EligibleCount(t: Thresholds, metric: Metric, s: seq<Candidate>, c: Candidate)
    ensures multiset(EligibleOf(t, metric, s))[c] == if Eligible(t, metric, c.summary) then multiset(s)[c] else 0
  {
    if s == [] {
    } else {
      var n := |s| - 1;
      EligibleCount(t, metric, s[..n], c);
      assert s == s[..n] + [s[n]];
    }
  }

  lemma EligiblePermuted(t: Thresholds, metric: Metric, s: seq<Candidate>, r: seq<Candidate>)
    requires multiset(s) == multiset(r)
    ensures multiset(EligibleOf(t, metric, s)) == multiset(EligibleOf(t, metric, r))
  {
    forall c
      ensures multiset(EligibleOf(t, metric, s))[c] == multiset(EligibleOf(t, metric, r))[c]
    {
      EligibleCount(t, metric, s, c);
      EligibleCount(t, metric, r, c);
    }
  }

  lemma {:induction false} EligibleIn(t: Thresholds, metric: Metric, s: seq<Candidate>)
    ensures forall c :: c in EligibleOf(t, metric, s) <==> c in s && Eligible(t, metric, c.summary)
  {
    if s == [] {
    } else {
      var n := |s| - 1;
      EligibleIn(t, metric, s[..n]);
      assert s == s[..n] + [s[n]];
    }
  }

  lemma {:induction false} EligibleDistinct(t: Thresholds, metric: Metric, s: seq<Candidate>)
    requires DistinctNames(s)
    ensures DistinctNames(EligibleOf(t, metric, s))
  {
    if s == [] {
    } else {
      var n := |s| - 1;
      var front := EligibleOf(t, metric, s[..n]);
      EligibleDistinct(t, metric, s[..n]);
      EligibleIn(t, metric, s[..n]);
      forall i | 0 <= i < |front|
        ensures front[i].name != s[n].name
      {
        assert front[i] in s[..n];
      }
    }
  }

  lemma CompeteSwap(metric: Metric, x: real, a: Candidate, b: Candidate, except: string)
    ensures Compete(metric, Compete(metric, x, a, except), b, except)
            == Compete(metric, Compete(metric, x, b, except), a, except)
  {
  }

  lemma {:induction false} CompetingLast(metric: Metric, victim: Summary, s: seq<Candidate>, i: nat, except: string)
    requires i < |s|
    ensures Competing(metric, victim, s, except)
            == Compete(metric, Competing(metric, victim, s[..i] + s[i + 1..], except), s[i], except)
  {
    var n, rest := |s| - 1, s[..i] + s[i + 1..];
    if i < n {
      var front := s[..n];
      var fewer := front[..i] + front[i + 1..];
      CompetingLast(metric, victim, front, i, except);
      LeaveOut(s, i);
      assert rest[..|rest| - 1] == fewer;
      CompeteSwap(metric, Competing(metric, victim, fewer, except), s[i], s[n], except);
    } else {
      assert rest == s[..n];
    }
  }

  lemma {:induction false} CompetingPermuted(
    metric: Metric, victim: Summary, s: seq<Candidate>, r: seq<Candidate>, except: string)
    requires multiset(s) == multiset(r)
    ensures Competing(metric, victim, s, except) == Competing(metric, victim, r, except)
    decreases |s|
  {
    if s == [] {
      assert |multiset(r)| == 0;
    } else {
      var i := SharedElement(s, r);
      CompetingLast(metric, victim, r, i, except);
      CompetingPermuted(metric, victim, s[..|s| - 1], r[..i] + r[i + 1..], except);
    }
  }

  lemma RankedEligiblePermuted(t: Thresholds, metric: Metric, s: seq<Candidate>, r: seq<Candidate>)
    requires DistinctNames(s) && multiset(s) == multiset(r)
    ensures RankedEligible(t, metric, s) == RankedEligible(t, metric, r)
  {
    EligibleDistinct(t, metric, s);
    EligiblePermuted(t, metric, s, r);
    SortCanonical(ByMetric(metric), EligibleOf(t, metric, s), EligibleOf(t, metric, r));
  }

  lemma SelectPermuted(t: Thresholds, victim: Summary, s: seq<Candidate>, r: seq<Candidate>)
    requires DistinctNames(s) && multiset(s) == multiset(r)
    ensures Select(t, victim, s) == Select(t, victim, r)
  {
    RankedEligiblePermuted(t, Bytes, s, r);
    RankedEligiblePermuted(t, Syscalls, s, r);
    forall metric, except
      ensures Competing(metric, victim, s, except) == Competing(metric, victim, r, except)
    {
      CompetingPermuted(metric, victim, s, r, except);
    }
  }

  lemma {:induction false} ScoredPermuted(t: Thresholds, sel: Selection, s: seq<Candidate>, r: seq<Candidate>)
    requires multiset(s) == multiset(r)
    ensures multiset(ScoredAll(t, sel, s)) == multiset(ScoredAll(t, sel, r))
    decreases |s|
  {
    if s == [] {
      assert |multiset(r)| == 0;
    } else {
      var i := SharedElement(s, r);
      var n := |s| - 1;
      var rest := r[..i] + r[i + 1..];
      ScoredPermuted(t, sel, s[..n], rest);
      assert ScoredAll(t, sel, s) == ScoredAll(t, sel, s[..n]) + [Scored(t, sel, s[n])];
      ScoredMove(t, sel, r, i);
    }
  }

  lemma ScoredDistinct(t: Thresholds, sel: Selection, s: seq<Candidate>)
    requires DistinctNames(s)
    ensures DistinctNames(ScoredAll(t, sel, s))
  {
  }

  lemma ScoredMove(t: Thresholds, sel: Selection, r: seq<Candidate>, i: nat)
    requires i < |r|
    ensures multiset(ScoredAll(t, sel, r))
            == multiset(ScoredAll(t, sel, r[..i] + r[i + 1..])) + multiset{Scored(t, sel, r[i])}
  {
    var a, b := ScoredAll(t, sel, r[..i]), ScoredAll(t, sel, r[i + 1..]);
    assert ScoredAll(t, sel, r) == a + ([Scored(t, sel, r[i])] + b);
    assert ScoredAll(t, sel, r[..i] + r[i + 1..]) == a + b;
  }

  /** The report is the same for every order in which the candidates arrive. */
  lemma AnalysisCanonical(t: Thresholds, victim: Summary, s: seq<Candidate>, r: seq<Candidate>)
    requires DistinctNames(s) && multiset(s) == multiset(r)
    ensures Analysis(t, victim, s) == Analysis(t, victim, r)
  {
    SelectPermuted(t, victim, s, r);
    var sel := Select(t, victim, s);
    ScoredPermuted(t, sel, s, r);
    ScoredDistinct(t, sel, s);
    SortCanonical(ByScore, ScoredAll(t, sel, s), ScoredAll(t, sel, r));
  }

  // ----- what the report says -----

  /** The report lists the candidates, each once, scored. */
  lemma AnalysisIsPermutation(t: Thresholds, victim: Summary, s: seq<Candidate>)
    requires DistinctNames(s)
    ensures multiset(Analysis(t, victim, s).candidates) == multiset(ScoredAll(t, Select(t, victim, s), s))
    ensures Ranked(ByScore, Analysis(t, victim, s).candidates) && DistinctNames(Analysis(t, victim, s).candidates)
  {
    var all := ScoredAll(t, Select(t, victim, s), s);
    ScoredDistinct(t, Select(t, victim, s), s);
    SortRanks(ByScore, all);
    DistinctPermuted(all, SortBy(ByScore, all));
  }

  /** The eligible candidates are ranked by their average, then by their peak, then by name. */
  lemma RankingOrder(t: Thresholds, metric: Metric, s: seq<Candidate>, i: nat, j: nat)
    requires DistinctNames(s) && i < j < |RankedEligible(t, metric, s)|
    ensures var a, b := RankedEligible(t, metric, s)[i], RankedEligible(t, metric, s)[j];
            && (metric == Bytes ==>
                  && a.summary.averageWrite >= b.summary.averageWrite
                  && (a.summary.averageWrite == b.summary.averageWrite ==>
                        && a.summary.maxWrite >= b.summary.maxWrite
                        && (a.summary.maxWrite == b.summary.maxWrite ==> Less(a.name, b.name))))
            && (metric == Syscalls ==>
                  && a.summary.averageSyscw >= b.summary.averageSyscw
                  && (a.summary.averageSyscw == b.summary.averageSyscw ==>
                        && a.summary.maxSyscw >= b.summary.maxSyscw
                        && (a.summary.maxSyscw == b.summary.maxSyscw ==> Less(a.name, b.name))))
  {
    RankedEligibleIn(t, metric, s);
    assert Before(ByMetric(metric), RankedEligible(t, metric, s)[i], RankedEligible(t, metric, s)[j]);
  }

  /** In the report, high stands before medium and medium before low; within a score the
      higher byte rate stands first, then the higher system-call rate, then the name. */
  lemma ReportOrder(t: Thresholds, victim: Summary, s: seq<Candidate>, i: nat, j: nat)
    requires DistinctNames(s) && i < j < |Analysis(t, victim, s).candidates|
    ensures var a, b := Analysis(t, victim, s).candidates[i], Analysis(t, victim, s).candidates[j];
            && (a.score == Low ==> b.score == Low) && (a.score == Medium ==> b.score != High)
            && (a.score == b.score ==>
                  && a.summary.averageWrite >= b.summary.averageWrite
                  && (a.summary.averageWrite == b.summary.averageWrite ==>
                        && a.summary.averageSyscw >= b.summary.averageSyscw
                        && (a.summary.averageSyscw == b.summary.averageSyscw ==> Less(a.name, b.name))))
  {
    AnalysisIsPermutation(t, victim, s);
    assert Before(ByScore, Analysis(t, victim, s).candidates[i], Analysis(t, victim, s).candidates[j]);
  }

  /** An available summary that competes with a candidate: the victim's, or another's. */
  ghost predicate Rival(victim: Summary, s: seq<Candidate>, name: string, x: Summary) {
    x.available && (x == victim || exists d :: d in s && d.name != name && d.summary == x)
  }

  /** All rivals are near zero, or the rate is at least the ratio times each of theirs. */
  ghost predicate Outdoes(t: Thresholds, victim: Summary, s: seq<Candidate>, metric: Metric, c: Candidate) {
    || (forall x :: Rival(victim, s, c.name, x) ==> Quiet(metric, Rate(metric, x)))
    || (forall x :: Rival(victim, s, c.name, x) ==> AtLeast(Rate(metric, c.summary), t.dominanceRatio, Rate(metric, x)))
  }

  /** At most a hundredth of a mebibyte, or one system call, in a second. */
  predicate Quiet(metric: Metric, rate: real) {
    rate <= if metric == Bytes then 0.01 else 1.0
  }

  predicate AtLeast(rate: real, ratio: real, x: real) {
    rate >= ratio * x
  }

  /** The competing rate is the highest of the rivals, or zero without any. */
  lemma {:induction false} CompetingIsHighest(metric: Metric, victim: Summary, s: seq<Candidate>, name: string)
    ensures forall x :: Rival(victim, s, name, x) ==> Rate(metric, x) <= Competing(metric, victim, s, name)
    ensures Competing(metric, victim, s, name) > 0.0 ==>
              exists x :: Rival(victim, s, name, x) && Rate(metric, x) == Competing(metric, victim, s, name)
  {
    if s == [] {
      if Competing(metric, victim, s, name) > 0.0 { assert Rival(victim, s, name, victim); }
    } else {
      var front, last := s[..|s| - 1], s[|s| - 1];
      CompetingIsHighest(metric, victim, front, name);
      assert s == front + [last];
      forall x
        ensures Rival(victim, s, name, x) <==>
                  Rival(victim, front, name, x) || (x.available && last.name != name && last.summary == x)
      {
        assert last in s;
      }
      if Competing(metric, victim, s, name) > 0.0 {
        if Competing(metric, victim, s, name) != Competing(metric, victim, front, name) {
          assert Rival(victim, s, name, last.summary);
        } else {
          var x :| Rival(victim, front, name, x) && Rate(metric, x) == Competing(metric, victim, front, name);
          assert Rival(victim, s, name, x);
        }
      }
    }
  }

  lemma DominantWhen(t: Thresholds, victim: Summary, s: seq<Candidate>, metric: Metric, c: Candidate)
    requires Rate(metric, c.summary) >= Meaningful(t, metric)
    ensures Dominant(t, metric, Competing(metric, victim, s, c.name), Rate(metric, c.summary))
            <==> Outdoes(t, victim, s, metric, c)
  {
    DominantIsRatio(t, metric, Competing(metric, victim, s, c.name), Rate(metric, c.summary));
    OutdoesHighest(t, victim, s, metric, c, Competing(metric, victim, s, c.name));
  }

  lemma OutdoesHighest(t: Thresholds, victim: Summary, s: seq<Candidate>, metric: Metric, c: Candidate, highest: real)
    requires highest == Competing(metric, victim, s, c.name)
    ensures Outdoes(t, victim, s, metric, c)
            <==> highest <= NearZero(metric) || AtLeast(Rate(metric, c.summary), t.dominanceRatio, highest)
  {
    CompetingIsHighest(metric, victim, s, c.name);
    if highest > NearZero(metric) {
      var x :| Rival(victim, s, c.name, x) && Rate(metric, x) == highest;
      OutdoesTop(t, victim, s, metric, c, x);
    }
  }

  lemma OutdoesTop(t: Thresholds, victim: Summary, s: seq<Candidate>, metric: Metric, c: Candidate, top: Summary)
    requires Rival(victim, s, c.name, top) && Rate(metric, top) > NearZero(metric)
    requires forall x :: Rival(victim, s, c.name, x) ==> Rate(metric, x) <= Rate(metric, top)
    ensures Outdoes(t, victim, s, metric, c) <==> AtLeast(Rate(metric, c.summary), t.dominanceRatio, Rate(metric, top))
  {
    forall y | Rival(victim, s, c.name, y)
      ensures AtLeast(Rate(metric, c.summary), t.dominanceRatio, Rate(metric, top))
              ==> AtLeast(Rate(metric, c.summary), t.dominanceRatio, Rate(metric, y))
    {
      Scales(Rate(metric, y), Rate(metric, top), t.dominanceRatio);
    }
  }

  lemma DominantIsRatio(t: Thresholds, metric: Metric, comparison: real, rate: real)
    requires rate >= Meaningful(t, metric)
    ensures Dominant(t, metric, comparison, rate)
            <==> comparison <= NearZero(metric) || AtLeast(rate, t.dominanceRatio, comparison)
  {
    if comparison > NearZero(metric) { RatioTimes(rate, comparison, t.dominanceRatio); }
  }

  lemma RatioTimes(rate: real, comparison: real, ratio: real)
    requires comparison > 0.0
    ensures rate / comparison >= ratio <==> rate >= ratio * comparison
  {
    var q := rate / comparison;
    assert q * comparison == rate;
    TimesCompares(q, ratio, comparison);
  }

  lemma TimesCompares(a: real, b: real, c: real)
    requires c > 0.0
    ensures a >= b <==> a * c >= b * c
  {
    assert a * c - b * c == (a - b) * c;
    if a < b { assert (b - a) * c > 0.0; }
  }

  lemma Scales(a: real, b: real, c: real)
    requires a <= b && c >= 0.0
    ensures c * a <= c * b
  {
  }

  /** The selected name is that of an eligible candidate with the highest rate, which
      outdoes its rivals; system calls select only when no candidate writes a meaningful
      rate. */
  ghost predicate Justified(t: Thresholds, victim: Summary, s: seq<Candidate>, metric: Metric, c: Candidate) {
    && c in s && Eligible(t, metric, c.summary)
    && (forall d :: d in s && Eligible(t, metric, d.summary) ==> Rate(metric, d.summary) <= Rate(metric, c.summary))
    && Outdoes(t, victim, s, metric, c)
    && (metric == Syscalls ==> forall d :: d in s ==> !Eligible(t, Bytes, d.summary))
  }

  lemma RankedEligibleIn(t: Thresholds, metric: Metric, s: seq<Candidate>)
    requires DistinctNames(s)
    ensures forall c :: c in RankedEligible(t, metric, s) <==> c in s && Eligible(t, metric, c.summary)
    ensures Ranked(ByMetric(metric), RankedEligible(t, metric, s))
  {
    EligibleIn(t, metric, s);
    EligibleDistinct(t, metric, s);
    SortRanks(ByMetric(metric), EligibleOf(t, metric, s));
    forall c
      ensures c in RankedEligible(t, metric, s) <==> c in s && Eligible(t, metric, c.summary)
    {
      assert c in RankedEligible(t, metric, s) <==> c in multiset(RankedEligible(t, metric, s));
      assert c in EligibleOf(t, metric, s) <==> c in multiset(EligibleOf(t, metric, s));
    }
  }

  lemma SelectByJustified(t: Thresholds, victim: Summary, s: seq<Candidate>, metric: Metric) returns (c: Candidate)
    requires DistinctNames(s) && RankedEligible(t, metric, s) != []
    requires metric == Syscalls ==> RankedEligible(t, Bytes, s) == []
    ensures c in s && c == RankedEligible(t, metric, s)[0] && Eligible(t, metric, c.summary)
    ensures forall d :: d in s && Eligible(t, metric, d.summary) ==> Rate(metric, d.summary) <= Rate(metric, c.summary)
    ensures if Outdoes(t, victim, s, metric, c)
            then Justified(t, victim, s, metric, c) && SelectBy(t, metric, victim, s) == Selection(c.name, Reason(metric))
            else SelectBy(t, metric, victim, s) == NOTHING
  {
    var ranking := RankedEligible(t, metric, s);
    c := ranking[0];
    RankedEligibleIn(t, metric, s);
    RankedEligibleIn(t, Bytes, s);
    assert c in ranking;
    forall d | d in s && Eligible(t, metric, d.summary)
      ensures Rate(metric, d.summary) <= Rate(metric, c.summary)
    {
      assert d in ranking;
      var i :| 0 <= i < |ranking| && ranking[i] == d;
      assert i > 0 ==> Before(ByMetric(metric), ranking[0], ranking[i]);
    }
    DominantWhen(t, victim, s, metric, c);
  }

  lemma SelectionJustified(t: Thresholds, victim: Summary, s: seq<Candidate>) returns (metric: Metric, c: Candidate)
    requires DistinctNames(s) && Select(t, victim, s) != NOTHING
    ensures Justified(t, victim, s, metric, c) && Select(t, victim, s) == Selection(c.name, Reason(metric))
  {
    metric := if RankedEligible(t, Bytes, s) != [] then Bytes else Syscalls;
    c := SelectByJustified(t, victim, s, metric);
  }

  /** Of two candidates with the highest rate, both outdo their rivals or neither does. */
  lemma EquallyHigh(t: Thresholds, victim: Summary, s: seq<Candidate>, metric: Metric, c: Candidate, first: Candidate)
    requires c in s && first in s && c.summary.available && first.summary.available && DistinctNames(s)
    requires Rate(metric, c.summary) == Rate(metric, first.summary) && Outdoes(t, victim, s, metric, c)
    ensures Outdoes(t, victim, s, metric, first)
  {
    if c.name != first.name {
      assert Rival(victim, s, c.name, first.summary);
      forall x | Rival(victim, s, first.name, x)
        ensures Rival(victim, s, c.name, x) || Rate(metric, x) == Rate(metric, c.summary)
      {
        if x != victim {
          var d :| d in s && d.name != first.name && d.summary == x;
          if d.name == c.name { SameName(s, c, d); } else { assert Rival(victim, s, c.name, x); }
        }
      }
    } else {
      SameName(s, c, first);
    }
  }

  lemma SameName(s: seq<Candidate>, c: Candidate, d: Candidate)
    requires DistinctNames(s) && c in s && d in s && c.name == d.name
    ensures c == d
  {
    var i :| 0 <= i < |s| && s[i] == c;
    var j :| 0 <= j < |s| && s[j] == d;
    assert i == j;
  }

  lemma FirstIsIn(s: seq<Candidate>)
    ensures s != [] ==> s[0] in s
  {
  }

  /** Whenever a candidate is justified, one is selected, by the same metric. */
  lemma JustifiedIsSelected(t: Thresholds, victim: Summary, s: seq<Candidate>, metric: Metric, c: Candidate)
    requires DistinctNames(s) && Justified(t, victim, s, metric, c)
    ensures Select(t, victim, s) != NOTHING && Select(t, victim, s).reason == Reason(metric)
  {
    RankedEligibleIn(t, Bytes, s);
    RankedEligibleIn(t, metric, s);
    assert c in RankedEligible(t, metric, s);
    FirstIsIn(RankedEligible(t, Bytes, s));
    var first := SelectByJustified(t, victim, s, metric);
    EquallyHigh(t, victim, s, metric, c, first);
    assert |Reason(metric)| > 0;
  }

  lemma {:induction false} FirstNamedAt(s: seq<Candidate>, name: string, i: nat)
    requires i < |s| && s[i].name == name && forall j :: 0 <= j < i ==> s[j].name != name
    ensures FirstNamed(s, name) == Some(s[i])
  {
    if i == 0 {
    } else {
      assert s[1..][i - 1] == s[i];
      FirstNamedAt(s[1..], name, i - 1);
    }
  }

  lemma {:induction false} FirstNamedNone(s: seq<Candidate>, name: string)
    requires forall i :: 0 <= i < |s| ==> s[i].name != name
    ensures FirstNamed(s, name).None?
  {
    if s == [] {
    } else {
      FirstNamedNone(s[1..], name);
    }
  }

  ghost predicate HasName(s: seq<Candidate>, name: string) {
    exists c :: c in s && c.name == name
  }

  lemma ScoredMember(t: Thresholds, sel: Selection, s: seq<Candidate>, x: Candidate)
    requires (forall c :: c in s ==> c.score == Low) && x in ScoredAll(t, sel, s)
    ensures x.score == High <==> x.name == sel.name
    ensures HasName(s, x.name)
  {
    var k :| 0 <= k < |s| && ScoredAll(t, sel, s)[k] == x;
    assert s[k] in s && s[k].name == x.name;
  }

  /** Scoring makes high exactly the candidate with the selected name, and keeps the names. */
  lemma ReportScores(t: Thresholds, sel: Selection, s: seq<Candidate>, r: seq<Candidate>)
    requires (forall c :: c in s ==> c.score == Low) && multiset(r) == multiset(ScoredAll(t, sel, s))
    ensures forall i :: 0 <= i < |r| ==> (r[i].score == High <==> r[i].name == sel.name)
    ensures forall i :: 0 <= i < |r| ==> HasName(s, r[i].name)
  {
    forall i | 0 <= i < |r|
      ensures r[i].score == High <==> r[i].name == sel.name
      ensures HasName(s, r[i].name)
    {
      assert r[i] in multiset(r);
      ScoredMember(t, sel, s, r[i]);
    }
  }

  lemma ReportNames(t: Thresholds, sel: Selection, s: seq<Candidate>, r: seq<Candidate>, c: Candidate)
    requires multiset(r) == multiset(ScoredAll(t, sel, s)) && c in s
    ensures exists i :: 0 <= i < |r| && r[i].name == c.name
  {
    var all := ScoredAll(t, sel, s);
    var k :| 0 <= k < |s| && s[k] == c;
    assert all[k] in multiset(all);
    var i :| 0 <= i < |r| && r[i] == all[k];
    assert r[i].name == c.name;
  }

  /** In a ranking by score, the named candidate can only stand first. */
  lemma HighFirst(r: seq<Candidate>, name: string)
    requires Ranked(ByScore, r) && DistinctNames(r)
    requires forall i :: 0 <= i < |r| ==> (r[i].score == High <==> r[i].name == name)
    ensures forall i :: 0 < i < |r| ==> r[i].name != name
    ensures FirstNamed(r, name) == if r != [] && r[0].name == name then Some(r[0]) else None
  {
    forall i | 0 < i < |r|
      ensures r[i].name != name
    {
      assert Before(ByScore, r[0], r[i]);
    }
    if r != [] && r[0].name == name {
      FirstNamedAt(r, name, 0);
    } else {
      FirstNamedNone(r, name);
    }
  }

  /** With distinct names: a candidate of the report is high exactly when it carries the
      selected name; it then stands first and is the one reported as selected. So when
      nothing is selected, a candidate is high, and reported as selected, exactly when its
      name is empty. */
  lemma HighStandsFirst(t: Thresholds, victim: Summary, s: seq<Candidate>, i: nat)
    requires DistinctNames(s) && forall c :: c in s ==> c.score == Low
    requires i < |Analysis(t, victim, s).candidates|
    ensures var r := Analysis(t, victim, s);
            && (r.candidates[i].score == High <==> r.candidates[i].name == Select(t, victim, s).name)
            && (r.candidates[i].score == High <==> i == 0 && r.selected == Some(r.candidates[0]))
  {
    var sel, r := Select(t, victim, s), Analysis(t, victim, s).candidates;
    AnalysisIsPermutation(t, victim, s);
    ReportScores(t, sel, s, r);
    HighFirst(r, sel.name);
  }

  /** An empty name is enough: an unavailable target is then high and reported as selected
      although nothing is. */
  lemma EmptyNameIsSelected(t: Thresholds, victim: Summary, summary: Summary)
    requires !summary.available
    ensures var s := FreshAll([Target("", summary)]);
            var r := Analysis(t, victim, s);
            && Select(t, victim, s) == NOTHING
            && |r.candidates| == 1 && r.candidates[0].score == High && r.selected == Some(r.candidates[0])
  {
    var s := FreshAll([Target("", summary)]);
    forall metric
      ensures RankedEligible(t, metric, s) == []
    {
      assert s[..0] == [];
      assert EligibleOf(t, metric, s) == [];
    }
    var r := Analysis(t, victim, s).candidates;
    AnalysisIsPermutation(t, victim, s);
    assert |r| == |multiset(r)| == |ScoredAll(t, NOTHING, s)| == 1 by {
      assert multiset(r) == multiset(ScoredAll(t, NOTHING, s));
    }
    ReportNames(t, NOTHING, s, r, s[0]);
    var i :| 0 <= i < |r| && r[i].name == s[0].name;
    assert r[0].name == "";
    HighStandsFirst(t, victim, s, 0);
  }

  /** With nonempty names as well, a candidate is reported as selected exactly when some
      candidate is justified, and the selected one is: its rate is the highest of its kind
      among the eligible candidates, and outdoes its rivals. */
  lemma SelectedIsJustified(t: Thresholds, victim: Summary, s: seq<Candidate>)
    requires DistinctNames(s) && forall c :: c in s ==> c.score == Low && c.name != ""
    ensures var r := Analysis(t, victim, s);
            && (r.selected.Some? <==> exists metric, c :: Justified(t, victim, s, metric, c))
            && (r.selected.Some? ==> exists metric, c :: Justified(t, victim, s, metric, c)
                                       && c.name == r.selected.value.name
                                       && r.reason == if metric == Bytes then "dominant byte write rate"
                                                      else "dominant syscall pressure")
            && (r.selected.None? ==> r.reason == "no dominant writer observed")
  {
    var sel, r := Select(t, victim, s), Analysis(t, victim, s).candidates;
    AnalysisIsPermutation(t, victim, s);
    ReportScores(t, sel, s, r);
    HighFirst(r, sel.name);
    if sel != NOTHING {
      var metric, c := SelectionJustified(t, victim, s);
      ReportNames(t, sel, s, r, c);
      var i :| 0 <= i < |r| && r[i].name == c.name;
      assert i == 0;
    } else if metric, c :| Justified(t, victim, s, metric, c) {
      JustifiedIsSelected(t, victim, s, metric, c);
    }
  }

  /** A candidate that is not selected is medium exactly when its rates are meaningful. */
  lemma OthersAreScored(t: Thresholds, victim: Summary, s: seq<Candidate>, i: nat)
    requires DistinctNames(s) && (forall c :: c in s ==> c.score == Low) && i < |Analysis(t, victim, s).candidates|
    ensures var c := Analysis(t, victim, s).candidates[i];
            c.score == Medium <==>
              && c.name != Select(t, victim, s).name && c.summary.available
              && (c.summary.averageWrite >= t.writeRate || c.summary.averageSyscw >= t.syscallRate)
  {
    var sel, r := Select(t, victim, s), Analysis(t, victim, s).candidates;
    AnalysisIsPermutation(t, victim, s);
    assert r[i] in multiset(r);
    MediumMember(t, sel, s, r[i]);
  }

  lemma MediumMember(t: Thresholds, sel: Selection, s: seq<Candidate>, c: Candidate)
    requires (forall d :: d in s ==> d.score == Low) && c in ScoredAll(t, sel, s)
    ensures c.score == Medium <==>
              && c.name != sel.name && c.summary.available
              && (c.summary.averageWrite >= t.writeRate || c.summary.averageSyscw >= t.syscallRate)
  {
    var k :| 0 <= k < |s| && ScoredAll(t, sel, s)[k] == c;
    assert s[k] in s;
  }

  /** Why each candidate has its score: the selected one by the report's reason, any other
      by the first rate that is meaningful, or as idle, or by why nothing was sampled. */
  lemma ReasonsSay(t: Thresholds, victim: Summary, targets: seq<Target>, i: nat)
    requires DistinctNames(FreshAll(targets)) && i < |Analysis(t, victim, FreshAll(targets)).candidates|
    ensures var c := Analysis(t, victim, FreshAll(targets)).candidates[i];
            c.reason == if c.score == High then Select(t, victim, FreshAll(targets)).reason
                        else if !c.summary.available then c.summary.idleReason
                        else if c.summary.averageWrite >= t.writeRate then "write activity, not dominant"
                        else if c.summary.averageSyscw >= t.syscallRate then "syscall pressure, not dominant"
                        else "idle"
  {
    var s := FreshAll(targets);
    var sel, r := Select(t, victim, s), Analysis(t, victim, s).candidates;
    AnalysisIsPermutation(t, victim, s);
    assert r[i] in multiset(r);
    ReasonOfMember(t, sel, targets, r[i]);
  }

  lemma ReasonOfMember(t: Thresholds, sel: Selection, targets: seq<Target>, c: Candidate)
    requires c in ScoredAll(t, sel, FreshAll(targets))
    ensures c.reason == if c.score == High then sel.reason
                        else if !c.summary.available then c.summary.idleReason
                        else if c.summary.averageWrite >= t.writeRate then "write activity, not dominant"
                        else if c.summary.averageSyscw >= t.syscallRate then "syscall pressure, not dominant"
                        else "idle"
  {
    var k :| 0 <= k < |targets| && ScoredAll(t, sel, FreshAll(targets))[k] == c;
    assert c == Scored(t, sel, Fresh(targets[k]));
  }

  /** The thresholds in force are those configured, unless they cannot be used. */
  lemma ThresholdsInForce(t: Configured)
    ensures var e := EffectiveThresholds(t);
            && (t.writeRate > 0.0 ==> e.writeRate == t.writeRate) && (t.writeRate <= 0.0 ==> e.writeRate == 10.0)
            && (t.syscallRate > 0.0 ==> e.syscallRate == t.syscallRate) && (t.syscallRate <= 0.0 ==> e.syscallRate == 10_000.0)
            && (t.dominanceRatio >= 1.0 ==> e.dominanceRatio == t.dominanceRatio)
            && (t.dominanceRatio < 1.0 ==> e.dominanceRatio == 2.0)
  {
  }
}
