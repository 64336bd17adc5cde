/** The options of `top`, and the rewriting of `monitor` into `top` arguments. */
module MonitorCommand {
  import opened Words
  import opened Sorting

  datatype Flag =
    | Duration | Interval | Every | UIRefresh | Iterations | SortField
    | EBPFLatency | Application | Clear | NoClear

  function Text(f: Flag): string {
    match f
    case Duration => "--duration"
    case Interval => "--interval"
    case Every => "--every"
    case UIRefresh => "--ui-refresh"
    case Iterations => "--iterations"
    case SortField => "--sort"
    case EBPFLatency => "--include-ebpf-latency"
    case Application => "--application"
    case Clear => "--clear"
    case NoClear => "--no-clear"
  }

  predicate IsBoolean(f: Flag) {
    f.EBPFLatency? || f.Application? || f.Clear? || f.NoClear?
  }

  /** Durations are in nanoseconds. */
  datatype Options = Options(
    duration: int, interval: int, every: int, uiRefresh: int, iterations: int, includeEBPF: bool, application: bool,
    clear: bool, sort: string)

  const MILLISECOND: int := 1_000_000
  const SECOND: int := 1_000_000_000

  const TOP_DEFAULTS := Options(3 * SECOND, SECOND, 5 * SECOND, 0, 0, false, false, true, "pressure")

  /** The library's text conversions, and the sort fields with their normal form. */
  datatype Library = Library(
    parseDuration: string -> Option<int>, parseBool: string -> Option<bool>, atoi: string -> Option<int>,
    sortField: string -> Option<string>)

  /** The token is the option, bare or with a value after an equals sign. */
  predicate Gives(token: string, name: string) {
    token == name || HasPrefix(token, name + "=")
  }

  predicate Names(token: string, f: Flag) {
    Gives(token, Text(f))
  }

  // ----- scanning -----

  /** What has been scanned: the options, and which flags were given. */
  datatype Scanned = Scanned(options: Options, seen: set<Flag>)

  datatype Step = Failed | Used(scanned: Scanned, tokens: nat)

  /** The flag a token gives: a boolean flag in either form, any other only bare. */
  function FlagOf(token: string): Option<Flag> {
    if Names(token, EBPFLatency) then Some(EBPFLatency)
    else if Names(token, Application) then Some(Application)
    else if Names(token, Clear) then Some(Clear)
    else if Names(token, NoClear) then Some(NoClear)
    else if token == Text(Duration) then Some(Duration)
    else if token == Text(Interval) then Some(Interval)
    else if token == Text(Every) then Some(Every)
    else if token == Text(UIRefresh) then Some(UIRefresh)
    else if token == Text(Iterations) then Some(Iterations)
    else if token == Text(SortField) then Some(SortField)
    else None
  }

  function BooleanValue(lib: Library, token: string, f: Flag): Option<bool>
    requires Names(token, f)
  {
    if token == Text(f) then Some(true) else lib.parseBool(token[|Text(f)| + 1..])
  }

  function SetBoolean(o: Options, f: Flag, value: bool): Options {
    match f
    case EBPFLatency => o.(includeEBPF := value)
    case Application => o.(application := value)
    case Clear => o.(clear := value)
    case NoClear => o.(clear := !value)
    case _ => o
  }

  function Positive(parsed: Option<int>, low: int): Option<int> {
    if parsed.Some? && parsed.value > 0 && parsed.value >= low then parsed else None
  }

  function SetValue(lib: Library, o: Options, f: Flag, value: string): Option<Options> {
    var duration := Positive(lib.parseDuration(value), if f.UIRefresh? then 100 * MILLISECOND else 1);
    match f
    case Duration => if duration.Some? then Some(o.(duration := duration.value)) else None
    case Interval => if duration.Some? then Some(o.(interval := duration.value)) else None
    case Every => if duration.Some? then Some(o.(every := duration.value)) else None
    case UIRefresh => if duration.Some? then Some(o.(uiRefresh := duration.value)) else None
    case Iterations =>
      var n := Positive(lib.atoi(value), 1);
      if n.Some? then Some(o.(iterations := n.value)) else None
    case SortField =>
      var field := lib.sortField(value);
      if field.Some? then Some(o.(sort := field.value)) else None
    case _ => None
  }

  /** One option, with the argument that follows it. */
  function StepOf(lib: Library, token: string, next: Option<string>, s: Scanned): Step {
    match FlagOf(token)
    case None => Failed
    case Some(f) =>
      if f in s.seen then Failed
      else if IsBoolean(f) then
        (if !Names(token, f) then Failed else
         var value := BooleanValue(lib, token, f);
         if value.None? then Failed else Used(Scanned(SetBoolean(s.options, f, value.value), s.seen + {f}), 1))
      else if next.None? || HasPrefix(next.value, "--") then Failed
      else
        var options := SetValue(lib, s.options, f, Trim(next.value));
        if options.None? then Failed else Used(Scanned(options.value, s.seen + {f}), 2)
  }

  function Following(args: seq<string>): Option<string> {
    if |args| >= 2 then Some(args[1]) else None
  }

  function Scan(lib: Library, args: seq<string>, s: Scanned): Option<Scanned> {
    if args == [] then Some(s) else
    match StepOf(lib, args[0], Following(args), s)
    case Failed => None
    case Used(t, n) => if 0 < n <= |args| then Scan(lib, args[n..], t) else None
  }

  /** The options that arguments give over some defaults, if they are acceptable. */
  function Parse(lib: Library, defaults: Options, args: seq<string>): Option<Options> {
    match Scan(lib, args, Scanned(defaults, {}))
    case None => None
    case Some(s) =>
      if s.options.interval > s.options.duration || (Clear in s.seen && NoClear in s.seen) then None
      else Some(s.options)
  }

  method ParseTopArgs(lib: Library, args: seq<string>) returns (r: Option<Options>)
    ensures r == if args == [] || args[0] != "top" then None else Parse(lib, TOP_DEFAULTS, args[1..])
  {
    if |args| == 0 || args[0] != "top" {
      return None;
    }
    var options := TOP_DEFAULTS;
    var seen: set<Flag> := {};
    var index := 1;
    while index < |args|
      invariant 1 <= index <= |args|
      invariant Scan(lib, args[index..], Scanned(options, seen)) == Scan(lib, args[1..], Scanned(TOP_DEFAULTS, {}))
      decreases |args| - index
    {
      var option := args[index];
      assert args[index..][0] == option && args[index..][1..] == args[index + 1..];
      assert Following(args[index..]) == if index + 1 < |args| then Some(args[index + 1]) else None;
      var flag := FlagOf(option);
      if flag.None? || flag.value in seen {
        return None;
      }
      if IsBoolean(flag.value) {
        FlagNames(option);
        var value := BooleanValue(lib, option, flag.value);
        if value.None? {
          return None;
        }
        options := SetBoolean(options, flag.value, value.value);
        seen := seen + {flag.value};
        index := index + 1;
        continue;
      }
      if index + 1 >= |args| || HasPrefix(args[index + 1], "--") {
        return None;
      }
      assert args[index..][2..] == args[index + 2..];
      var changed := SetValue(lib, options, flag.value, Trim(args[index + 1]));
      if changed.None? {
        return None;
      }
      options := changed.value;
      seen := seen + {flag.value};
      index := index + 2;
    }
    if options.interval > options.duration {
      return None;
    }
    if Clear in seen && NoClear in seen {
      return None;
    }
    return Some(options);
  }

  lemma FlagNames(token: string)
    ensures FlagOf(token).Some? ==> Names(token, FlagOf(token).value)
  {
  }

  // ----- option texts -----

  /** The part of a token before an equals sign. */
  function BaseName(token: string): string {
    if token == "" || token[0] == '=' then "" else [token[0]] + BaseName(token[1..])
  }

  lemma {:induction false} BaseNameOf(name: string, value: string)
    requires '=' !in name
    ensures BaseName(name) == name && BaseName(name + "=" + value) == name
  {
    if name == "" {
      assert name + "=" + value == "=" + value;
    } else {
      BaseNameOf(name[1..], value);
      assert name == [name[0]] + name[1..];
      assert (name + "=" + value)[1..] == name[1..] + "=" + value;
    }
  }

  lemma TextShape(f: Flag)
    ensures '=' !in Text(f) && |Text(f)| >= 6 && Text(f)[0] == Text(f)[1] == '-'
    ensures var shape := (|Text(f)|, Text(f)[2]);
            shape == match f
                     case Duration => (10, 'd')
                     case Interval => (10, 'i')
                     case Every => (7, 'e')
                     case UIRefresh => (12, 'u')
                     case Iterations => (12, 'i')
                     case SortField => (6, 's')
                     case EBPFLatency => (22, 'i')
                     case Application => (13, 'a')
                     case Clear => (7, 'c')
                     case NoClear => (10, 'n')
  {
  }

  /** A token names at most one flag, and then starts with two dashes. */
  lemma NamesOne(token: string, f: Flag, g: Flag)
    requires Names(token, f)
    ensures HasPrefix(token, "--")
    ensures Names(token, g) <==> f == g
  {
    NamesBase(token, f);
    if Names(token, g) {
      NamesBase(token, g);
      TextShape(f);
      TextShape(g);
    }
  }

  lemma NamesBase(token: string, f: Flag)
    requires Names(token, f)
    ensures BaseName(token) == Text(f) && HasPrefix(token, "--")
  {
    TextShape(f);
    if token == Text(f) {
      BaseNameOf(Text(f), "");
    } else {
      var n := |Text(f)|;
      assert token == Text(f) + "=" + token[n + 1..];
      BaseNameOf(Text(f), token[n + 1..]);
      assert token[0] == Text(f)[0] && token[1] == Text(f)[1];
    }
  }

  lemma FlagOfText(f: Flag)
    ensures FlagOf(Text(f)) == Some(f)
  {
    forall g
      ensures Names(Text(f), g) <==> f == g
    {
      NamesOne(Text(f), f, g);
    }
  }

  // ----- expanding monitor -----

  /** For any option name, known or not. */
  method HasOption(args: seq<string>, name: string) returns (found: bool)
    ensures found <==> exists i :: 0 <= i < |args| && Gives(args[i], name)
  {
    for i := 0 to |args|
      invariant forall j :: 0 <= j < i ==> !Gives(args[j], name)
    {
      if args[i] == name || HasPrefix(args[i], name + "=") {
        return true;
      }
    }
    return false;
  }

  predicate Given(args: seq<string>, f: Flag) {
    exists i :: 0 <= i < |args| && Names(args[i], f)
  }

  function Default(rest: seq<string>, f: Flag, addition: seq<string>): seq<string> {
    if Given(rest, f) then [] else addition
  }

  function DefaultDuration(rest: seq<string>): seq<string> {
    Default(rest, Duration, [Text(Duration)] + ["5s"])
  }

  function DefaultEvery(rest: seq<string>): seq<string> {
    Default(rest, Every, [Text(Every)] + ["7s"])
  }

  function DefaultRefresh(rest: seq<string>): seq<string> {
    Default(rest, UIRefresh, [Text(UIRefresh)] + ["200ms"])
  }

  function DefaultEBPF(rest: seq<string>): seq<string> {
    Default(rest, EBPFLatency, [Text(EBPFLatency)] + [])
  }

  /** What is added to the arguments of monitor. */
  function Added(rest: seq<string>): seq<string> {
    [Text(Application)] + (DefaultDuration(rest) + (DefaultEvery(rest) + (DefaultRefresh(rest) + DefaultEBPF(rest))))
  }

  /** Tokens that name no flag, or another one. */
  ghost predicate Unrelated(tokens: seq<string>, f: Flag) {
    forall i :: 0 <= i < |tokens| ==> !Names(tokens[i], f)
  }

  lemma TopNamesNothing(f: Flag)
    ensures !Names("top", f)
  {
    if Names("top", f) {
      NamesOne("top", f, f);
    }
  }

  lemma GivenInRest(rest: seq<string>, tokens: seq<string>, f: Flag)
    requires Unrelated(tokens, f)
    ensures Given(["top"] + rest + tokens, f) <==> Given(rest, f)
  {
    var all := ["top"] + rest + tokens;
    TopNamesNothing(f);
    if Given(rest, f) {
      var i :| 0 <= i < |rest| && Names(rest[i], f);
      assert all[i + 1] == rest[i];
    }
    forall j | |rest| < j < |all|
      ensures !Names(all[j], f)
    {
      assert all[j] == tokens[j - 1 - |rest|];
    }
    if Given(all, f) {
      var i :| 0 <= i < |all| && Names(all[i], f);
      assert 0 < i <= |rest| && all[i] == rest[i - 1];
    }
  }

  /** The defaults are not options themselves, and are already trimmed. */
  lemma DefaultValues()
    ensures !HasPrefix("5s", "--") && !HasPrefix("7s", "--") && !HasPrefix("200ms", "--")
    ensures Trim("5s") == "5s" && Trim("7s") == "7s" && Trim("200ms") == "200ms"
  {
    assert "5s"[..2][0] == '5' && "7s"[..2][0] == '7' && "200ms"[..2][0] == '2' && "--"[0] == '-';
    assert !IsSpace('5') && !IsSpace('7') && !IsSpace('2') && !IsSpace('s');
  }

  /** A default is unrelated to every other flag. */
  lemma DefaultUnrelated(rest: seq<string>, f: Flag, value: seq<string>, g: Flag)
    requires f != g && forall i :: 0 <= i < |value| ==> !HasPrefix(value[i], "--")
    ensures Unrelated(Default(rest, f, [Text(f)] + value), g) && Unrelated([Text(f)], g)
  {
    NamesOne(Text(f), f, g);
    forall i | 0 <= i < |value|
      ensures !Names(value[i], g)
    {
      if Names(value[i], g) { NamesOne(value[i], g, g); }
    }
  }

  /** What was added so far does not change whether another option counts as given. */
  lemma SameDefault(rest: seq<string>, added: seq<string>, f: Flag, addition: seq<string>)
    requires Unrelated(added, f)
    ensures Default(["top"] + rest + added, f, addition) == Default(rest, f, addition)
  {
    GivenInRest(rest, added, f);
  }

  /** Nothing added before an option names it. */
  lemma AddedUnrelated(rest: seq<string>)
    ensures var a := [Text(Application)];
            && Unrelated(a, Duration) && Unrelated(a + DefaultDuration(rest), Every)
            && Unrelated(a + DefaultDuration(rest) + DefaultEvery(rest), UIRefresh)
            && Unrelated(a + DefaultDuration(rest) + DefaultEvery(rest) + DefaultRefresh(rest), EBPFLatency)
  {
    DefaultValues();
    var a := [Text(Application)];
    forall f: Flag | f.Duration? || f.Every? || f.UIRefresh? || f.EBPFLatency?
      ensures Unrelated(a, f)
      ensures !f.Duration? ==> Unrelated(DefaultDuration(rest), f)
      ensures !f.Every? ==> Unrelated(DefaultEvery(rest), f)
      ensures !f.UIRefresh? ==> Unrelated(DefaultRefresh(rest), f)
    {
      DefaultUnrelated(rest, Application, [], f);
      if !f.Duration? { DefaultUnrelated(rest, Duration, ["5s"], f); }
      if !f.Every? { DefaultUnrelated(rest, Every, ["7s"], f); }
      if !f.UIRefresh? { DefaultUnrelated(rest, UIRefresh, ["200ms"], f); }
    }
  }

  /** Adds an option that was not given yet. */
  method AddMissing(rest: seq<string>, expanded: seq<string>, f: Flag, addition: seq<string>, ghost added: seq<string>)
    returns (r: seq<string>, ghost more: seq<string>)
    requires expanded == ["top"] + rest + added && Unrelated(added, f)
    ensures more == added + Default(rest, f, addition) && r == ["top"] + rest + more
  {
    r, more := expanded, added;
    SameDefault(rest, added, f, addition);
    var found := HasOption(expanded, Text(f));
    assert found <==> Given(expanded, f) by {
      assert forall i :: 0 <= i < |expanded| ==> (Names(expanded[i], f) <==> Gives(expanded[i], Text(f)));
    }
    if !found {
      r, more := r + addition, more + addition;
    }
    assert more == added + Default(rest, f, addition);
  }

  /** The arguments of `top` for the arguments of `monitor`. */
  method ExpandMonitor(rest: seq<string>) returns (expanded: seq<string>)
    ensures expanded == ["top"] + rest + Added(rest)
  {
    AddedUnrelated(rest);
    expanded := ["top"] + rest + [Text(Application)];
    ghost var a := [Text(Application)];
    expanded, a := AddMissing(rest, expanded, Duration, [Text(Duration)] + ["5s"], a);
    expanded, a := AddMissing(rest, expanded, Every, [Text(Every)] + ["7s"], a);
    expanded, a := AddMissing(rest, expanded, UIRefresh, [Text(UIRefresh)] + ["200ms"], a);
    expanded, a := AddMissing(rest, expanded, EBPFLatency, [Text(EBPFLatency)] + [], a);
    assert a == Added(rest);
  }

  // ----- monitor is a change of defaults -----

  const MONITOR_DEFAULTS :=
    TOP_DEFAULTS.(duration := 5 * SECOND, every := 7 * SECOND, uiRefresh := 200 * MILLISECOND, includeEBPF := true,
                  application := true)

  /** The same scan over the defaults of monitor. */
  function Rebased(s: Scanned): Scanned {
    var o := s.options;
    s.(options := o.(
      duration := if Duration in s.seen then o.duration else MONITOR_DEFAULTS.duration,
      every := if Every in s.seen then o.every else MONITOR_DEFAULTS.every,
      uiRefresh := if UIRefresh in s.seen then o.uiRefresh else MONITOR_DEFAULTS.uiRefresh,
      includeEBPF := if EBPFLatency in s.seen then o.includeEBPF else MONITOR_DEFAULTS.includeEBPF,
      application := if Application in s.seen then o.application else MONITOR_DEFAULTS.application))
  }

  function RebasedStep(step: Step): Step {
    if step.Failed? then Failed else Used(Rebased(step.scanned), step.tokens)
  }

  lemma BooleanRebased(s: Scanned, f: Flag, value: bool)
    requires IsBoolean(f)
    ensures Scanned(SetBoolean(Rebased(s).options, f, value), s.seen + {f})
            == Rebased(Scanned(SetBoolean(s.options, f, value), s.seen + {f}))
  {
  }

  lemma ValueRebased(lib: Library, s: Scanned, f: Flag, value: string)
    ensures var a, b := SetValue(lib, s.options, f, value), SetValue(lib, Rebased(s).options, f, value);
            if a.None? then b.None?
            else b.Some? && Scanned(b.value, s.seen + {f}) == Rebased(Scanned(a.value, s.seen + {f}))
  {
  }

  lemma StepRebased(lib: Library, token: string, next: Option<string>, s: Scanned)
    ensures StepOf(lib, token, next, Rebased(s)) == RebasedStep(StepOf(lib, token, next, s))
  {
    FlagNames(token);
    var flag := FlagOf(token);
    if flag.Some? && flag.value !in s.seen {
      if IsBoolean(flag.value) {
        var value := BooleanValue(lib, token, flag.value);
        if value.Some? { BooleanRebased(s, flag.value, value.value); }
      } else if next.Some? {
        ValueRebased(lib, s, flag.value, Trim(next.value));
      }
    }
  }

  lemma {:induction false} ScanRebased(lib: Library, args: seq<string>, s: Scanned)
    ensures Scan(lib, args, Rebased(s))
            == if Scan(lib, args, s).None? then None else Some(Rebased(Scan(lib, args, s).value))
    decreases |args|
  {
    if args == [] {
    } else {
      StepRebased(lib, args[0], Following(args), s);
      var step := StepOf(lib, args[0], Following(args), s);
      if step.Used? && 0 < step.tokens <= |args| {
        ScanRebased(lib, args[step.tokens..], step.scanned);
      }
    }
  }

  /** Arguments followed by an option scan as they do alone, and then the rest. */
  lemma {:induction false} ScanAppend(lib: Library, args: seq<string>, tail: seq<string>, s: Scanned)
    requires tail != [] && HasPrefix(tail[0], "--")
    ensures Scan(lib, args + tail, s)
            == if Scan(lib, args, s).None? then None else Scan(lib, tail, Scan(lib, args, s).value)
    decreases |args|
  {
    if args == [] {
      assert args + tail == tail;
    } else {
      var all := args + tail;
      assert all[0] == args[0] && Following(all) == if |args| >= 2 then Some(args[1]) else Some(tail[0]);
      var step := StepOf(lib, args[0], Following(args), s);
      assert step == StepOf(lib, all[0], Following(all), s);
      if step.Used? {
        assert step.tokens <= |args|;
        assert all[step.tokens..] == args[step.tokens..] + tail;
        ScanAppend(lib, args[step.tokens..], tail, step.scanned);
      }
    }
  }

  /** A successful scan has seen exactly the flags that were given. */
  lemma {:induction false} SeenIsGiven(lib: Library, args: seq<string>, s: Scanned, f: Flag)
    requires Scan(lib, args, s).Some?
    ensures f in Scan(lib, args, s).value.seen <==> f in s.seen || Given(args, f)
    decreases |args|
  {
    if args == [] {
    } else {
      var step := StepOf(lib, args[0], Following(args), s);
      var rest := args[step.tokens..];
      SeenIsGiven(lib, rest, step.scanned, f);
      FlagNames(args[0]);
      NamesOne(args[0], FlagOf(args[0]).value, f);
      if step.tokens == 2 && Names(args[1], f) { NamesOne(args[1], f, f); }
      GivenSplit(args, step.tokens, f);
    }
  }

  lemma GivenSplit(args: seq<string>, n: nat, f: Flag)
    requires 1 <= n <= 2 && n <= |args|
    ensures Given(args, f) <==> Names(args[0], f) || (n == 2 && Names(args[1], f)) || Given(args[n..], f)
  {
    if Given(args[n..], f) {
      var i :| 0 <= i < |args[n..]| && Names(args[n..][i], f);
      assert args[n + i] == args[n..][i];
    }
    if Given(args, f) {
      var i :| 0 <= i < |args| && Names(args[i], f);
      if i >= n { assert args[n..][i - n] == args[i]; }
    }
  }

  /** The library reads the three default values. */
  ghost predicate ReadsDefaults(lib: Library) {
    && lib.parseDuration("5s") == Some(5 * SECOND) && lib.parseDuration("7s") == Some(7 * SECOND)
    && lib.parseDuration("200ms") == Some(200 * MILLISECOND)
  }

  /** Scanning a part that is one option, or nothing. */
  lemma ScanPart(lib: Library, part: seq<string>, more: seq<string>, s: Scanned, t: Scanned)
    requires part != [] ==> StepOf(lib, part[0], Following(part), s) == Used(t, |part|)
    requires part == [] ==> t == s
    ensures Scan(lib, part + more, s) == Scan(lib, more, t)
  {
    if part == [] {
      assert part + more == more;
    } else {
      var all := part + more;
      assert all[0] == part[0] && all[|part|..] == more;
      assert |part| >= 2 ==> Following(all) == Following(part);
    }
  }

  lemma ValueStep(lib: Library, f: Flag, value: string, s: Scanned)
    requires !IsBoolean(f) && f !in s.seen && !HasPrefix(value, "--") && Trim(value) == value
    requires SetValue(lib, s.options, f, value).Some?
    ensures StepOf(lib, Text(f), Some(value), s) == Used(Scanned(SetValue(lib, s.options, f, value).value, s.seen + {f}), 2)
  {
    FlagOfText(f);
  }

  lemma BareStep(lib: Library, f: Flag, next: Option<string>, s: Scanned)
    requires IsBoolean(f) && f !in s.seen
    ensures StepOf(lib, Text(f), next, s) == Used(Scanned(SetBoolean(s.options, f, true), s.seen + {f}), 1)
  {
    FlagOfText(f);
  }

  /** The default of a value flag, when the flag was not given. */
  lemma ScanValueDefault(lib: Library, rest: seq<string>, f: Flag, value: string, more: seq<string>, s: Scanned, t: Scanned)
    requires !IsBoolean(f) && (f in s.seen <==> Given(rest, f)) && !HasPrefix(value, "--") && Trim(value) == value
    requires SetValue(lib, s.options, f, value).Some?
    requires t == if f in s.seen then s else Scanned(SetValue(lib, s.options, f, value).value, s.seen + {f})
    ensures Scan(lib, Default(rest, f, [Text(f)] + [value]) + more, s) == Scan(lib, more, t)
  {
    if f !in s.seen { ValueStep(lib, f, value, s); }
    ScanPart(lib, Default(rest, f, [Text(f)] + [value]), more, s, t);
  }

  function FillApplication(s: Scanned): Scanned {
    Scanned(s.options.(application := true), s.seen + {Application})
  }

  function FillDuration(s: Scanned): Scanned {
    if Duration in s.seen then s else Scanned(s.options.(duration := 5 * SECOND), s.seen + {Duration})
  }

  function FillEvery(s: Scanned): Scanned {
    if Every in s.seen then s else Scanned(s.options.(every := 7 * SECOND), s.seen + {Every})
  }

  function FillRefresh(s: Scanned): Scanned {
    if UIRefresh in s.seen then s else Scanned(s.options.(uiRefresh := 200 * MILLISECOND), s.seen + {UIRefresh})
  }

  function FillEBPF(s: Scanned): Scanned {
    if EBPFLatency in s.seen then s else Scanned(s.options.(includeEBPF := true), s.seen + {EBPFLatency})
  }

  lemma ScanEBPF(lib: Library, rest: seq<string>, s: Scanned)
    requires EBPFLatency in s.seen <==> Given(rest, EBPFLatency)
    ensures Scan(lib, DefaultEBPF(rest), s) == Some(FillEBPF(s))
  {
    assert [Text(EBPFLatency)] + [] == [Text(EBPFLatency)];
    if EBPFLatency !in s.seen { BareStep(lib, EBPFLatency, None, s); }
    ScanPart(lib, DefaultEBPF(rest), [], s, FillEBPF(s));
    assert DefaultEBPF(rest) + [] == DefaultEBPF(rest);
  }

  lemma ScanValues(lib: Library, rest: seq<string>, s: Scanned)
    requires ReadsDefaults(lib)
    requires forall f: Flag :: f in s.seen && !f.Application? <==> Given(rest, f)
    ensures Scan(lib, DefaultDuration(rest) + (DefaultEvery(rest) + (DefaultRefresh(rest) + DefaultEBPF(rest))), s)
            == Some(FillEBPF(FillRefresh(FillEvery(FillDuration(s)))))
  {
    DefaultValues();
    var p := DefaultRefresh(rest) + DefaultEBPF(rest);
    var a, b := FillDuration(s), FillEvery(FillDuration(s));
    ScanValueDefault(lib, rest, Duration, "5s", DefaultEvery(rest) + p, s, a);
    ScanValueDefault(lib, rest, Every, "7s", p, a, b);
    ScanLast(lib, rest, b);
  }

  lemma ScanLast(lib: Library, rest: seq<string>, s: Scanned)
    requires ReadsDefaults(lib)
    requires UIRefresh in s.seen <==> Given(rest, UIRefresh)
    requires EBPFLatency in s.seen <==> Given(rest, EBPFLatency)
    ensures Scan(lib, DefaultRefresh(rest) + DefaultEBPF(rest), s) == Some(FillEBPF(FillRefresh(s)))
  {
    DefaultValues();
    ScanValueDefault(lib, rest, UIRefresh, "200ms", DefaultEBPF(rest), s, FillRefresh(s));
    ScanEBPF(lib, rest, FillRefresh(s));
  }

  lemma FilledIsRebased(s: Scanned)
    requires Application !in s.seen
    ensures var t := FillEBPF(FillRefresh(FillEvery(FillDuration(FillApplication(s)))));
            && t.options == Rebased(s).options
            && (Clear in t.seen <==> Clear in s.seen) && (NoClear in t.seen <==> NoClear in s.seen)
  {
  }

  /** Scanning what monitor adds puts its defaults in place of what was not given. */
  lemma ScanAdded(lib: Library, rest: seq<string>, s: Scanned) returns (t: Scanned)
    requires ReadsDefaults(lib) && Application !in s.seen
    requires forall f :: f in s.seen <==> Given(rest, f)
    ensures Scan(lib, Added(rest), s) == Some(t) && t.options == Rebased(s).options
    ensures (Clear in t.seen <==> Clear in s.seen) && (NoClear in t.seen <==> NoClear in s.seen)
  {
    t := FillEBPF(FillRefresh(FillEvery(FillDuration(FillApplication(s)))));
    BareStep(lib, Application, None, s);
    ScanPart(lib, [Text(Application)],
             DefaultDuration(rest) + (DefaultEvery(rest) + (DefaultRefresh(rest) + DefaultEBPF(rest))),
             s, FillApplication(s));
    ScanValues(lib, rest, FillApplication(s));
    FilledIsRebased(s);
  }

  /** With ExpandMonitor and ParseTopArgs: for every argument list that does not give
      --application, parsing the expansion of monitor accepts and returns exactly what
      parsing the arguments alone over the changed defaults does. */
  lemma MonitorIsTopWithDefaults(lib: Library, rest: seq<string>)
    requires ReadsDefaults(lib) && !Given(rest, Application)
    ensures Parse(lib, TOP_DEFAULTS, rest + Added(rest)) == Parse(lib, MONITOR_DEFAULTS, rest)
  {
    var s := Scanned(TOP_DEFAULTS, {});
    assert Rebased(s) == Scanned(MONITOR_DEFAULTS, {});
    TextShape(Application);
    ScanAppend(lib, rest, Added(rest), s);
    ScanRebased(lib, rest, s);
    var after := Scan(lib, rest, s);
    if after.Some? {
      forall f
        ensures f in after.value.seen <==> Given(rest, f)
      {
        SeenIsGiven(lib, rest, s, f);
      }
      var t := ScanAdded(lib, rest, after.value);
    }
  }

  /** With --application already given, in either form, the expansion is never accepted. */
  lemma ApplicationTwiceFails(lib: Library, rest: seq<string>)
    requires Given(rest, Application)
    ensures Parse(lib, TOP_DEFAULTS, rest + Added(rest)).None?
  {
    var s := Scanned(TOP_DEFAULTS, {});
    TextShape(Application);
    ScanAppend(lib, rest, Added(rest), s);
    var after := Scan(lib, rest, s);
    if after.Some? {
      SeenIsGiven(lib, rest, s, Application);
      FlagOfText(Application);
      assert Added(rest)[0] == Text(Application);
    }
  }

  // ----- what accepted arguments say -----

  /** An option as it is stored. */
  datatype Setting = Number(n: int) | Switch(b: bool) | Field(text: string)

  function SettingOf(o: Options, f: Flag): Setting {
    match f
    case Duration => Number(o.duration)
    case Interval => Number(o.interval)
    case Every => Number(o.every)
    case UIRefresh => Number(o.uiRefresh)
    case Iterations => Number(o.iterations)
    case SortField => Field(o.sort)
    case EBPFLatency => Switch(o.includeEBPF)
    case Application => Switch(o.application)
    case Clear => Switch(o.clear)
    case NoClear => Switch(o.clear)
  }

  /** Two flags that are stored in the same option. */
  predicate Shares(f: Flag, g: Flag) {
    f == g || (f.Clear? && g.NoClear?) || (f.NoClear? && g.Clear?)
  }

  /** A token switches an option on, or gives it the truth value after the equals sign. */
  predicate SaysSwitch(lib: Library, token: string, name: string, value: bool) {
    (token == name && value) || (HasPrefix(token, name + "=") && lib.parseBool(token[|name| + 1..]) == Some(value))
  }

  predicate SaysTime(lib: Library, next: Option<string>, time: int, least: int) {
    next.Some? && lib.parseDuration(Trim(next.value)) == Some(time) && time > 0 && time >= least
  }

  /** The stored option is what a token, with the argument after it, says. */
  predicate Says(lib: Library, token: string, next: Option<string>, f: Flag, o: Options) {
    match f
    case Duration => token == "--duration" && SaysTime(lib, next, o.duration, 1)
    case Interval => token == "--interval" && SaysTime(lib, next, o.interval, 1)
    case Every => token == "--every" && SaysTime(lib, next, o.every, 1)
    case UIRefresh => token == "--ui-refresh" && SaysTime(lib, next, o.uiRefresh, 100 * MILLISECOND)
    case Iterations =>
      token == "--iterations" && next.Some? && lib.atoi(Trim(next.value)) == Some(o.iterations) && o.iterations > 0
    case SortField => token == "--sort" && next.Some? && lib.sortField(Trim(next.value)) == Some(o.sort)
    case EBPFLatency => SaysSwitch(lib, token, "--include-ebpf-latency", o.includeEBPF)
    case Application => SaysSwitch(lib, token, "--application", o.application)
    case Clear => SaysSwitch(lib, token, "--clear", o.clear)
    case NoClear => SaysSwitch(lib, token, "--no-clear", !o.clear)
  }

  lemma SwitchSays(lib: Library, token: string, next: Option<string>, f: Flag, o: Options)
    requires IsBoolean(f) && Names(token, f) && BooleanValue(lib, token, f).Some?
    ensures Says(lib, token, next, f, SetBoolean(o, f, BooleanValue(lib, token, f).value))
  {
  }

  lemma ValueSays(lib: Library, token: string, value: string, f: Flag, o: Options)
    requires !IsBoolean(f) && token == Text(f) && SetValue(lib, o, f, Trim(value)).Some?
    ensures Says(lib, token, Some(value), f, SetValue(lib, o, f, Trim(value)).value)
  {
  }

  lemma SetKeeps(lib: Library, o: Options, own: Flag, b: bool, value: string, f: Flag)
    requires !Shares(f, own)
    ensures IsBoolean(own) ==> SettingOf(SetBoolean(o, own, b), f) == SettingOf(o, f)
    ensures SetValue(lib, o, own, value).Some? ==> SettingOf(SetValue(lib, o, own, value).value, f) == SettingOf(o, f)
  {
  }

  /** A step sets one option by its flag, once. */
  lemma StepSets(lib: Library, token: string, next: Option<string>, s: Scanned)
    requires StepOf(lib, token, next, s).Used?
    ensures var t, f := StepOf(lib, token, next, s).scanned, FlagOf(token).value;
            && f !in s.seen && t.seen == s.seen + {f} && Names(token, f)
            && (if IsBoolean(f) then
                  BooleanValue(lib, token, f).Some? && t.options == SetBoolean(s.options, f, BooleanValue(lib, token, f).value)
                else
                  && token == Text(f) && next.Some? && SetValue(lib, s.options, f, Trim(next.value)).Some?
                  && t.options == SetValue(lib, s.options, f, Trim(next.value)).value)
  {
    FlagNames(token);
    if IsBoolean(FlagOf(token).value) { SwitchSets(lib, token, next, s); } else { ValueSets(lib, token, next, s); }
  }

  lemma SwitchSets(lib: Library, token: string, next: Option<string>, s: Scanned)
    requires StepOf(lib, token, next, s).Used? && IsBoolean(FlagOf(token).value)
    ensures var t, f := StepOf(lib, token, next, s).scanned, FlagOf(token).value;
            && f !in s.seen && t.seen == s.seen + {f}
            && BooleanValue(lib, token, f).Some? && t.options == SetBoolean(s.options, f, BooleanValue(lib, token, f).value)
  {
  }

  lemma ValueSets(lib: Library, token: string, next: Option<string>, s: Scanned)
    requires StepOf(lib, token, next, s).Used? && !IsBoolean(FlagOf(token).value)
    ensures var t, f := StepOf(lib, token, next, s).scanned, FlagOf(token).value;
            && f !in s.seen && t.seen == s.seen + {f} && token == Text(f)
            && next.Some? && SetValue(lib, s.options, f, Trim(next.value)).Some?
            && t.options == SetValue(lib, s.options, f, Trim(next.value)).value
  {
  }

  lemma StepSays(lib: Library, token: string, next: Option<string>, s: Scanned, f: Flag)
    requires StepOf(lib, token, next, s).Used? && Names(token, f)
    ensures var step := StepOf(lib, token, next, s);
            && f !in s.seen && step.scanned.seen == s.seen + {f} && Says(lib, token, next, f, step.scanned.options)
  {
    StepSets(lib, token, next, s);
    NamesOne(token, f, FlagOf(token).value);
    if IsBoolean(f) { SwitchSays(lib, token, next, f, s.options); } else { ValueSays(lib, token, next.value, f, s.options); }
  }

  lemma StepKeeps(lib: Library, token: string, next: Option<string>, s: Scanned, f: Flag)
    requires StepOf(lib, token, next, s).Used?
    ensures var t := StepOf(lib, token, next, s).scanned;
            && s.seen <= t.seen
            && ((forall g :: Shares(f, g) && g in t.seen ==> g in s.seen) ==> SettingOf(t.options, f) == SettingOf(s.options, f))
  {
    var own := FlagOf(token).value;
    StepSets(lib, token, next, s);
    if !Shares(f, own) {
      SetKeeps(lib, s.options, own, IsBoolean(own) && BooleanValue(lib, token, own).value,
               if next.Some? then Trim(next.value) else "", f);
    }
  }

  /** What no later token names stays as it is. */
  lemma {:induction false} ScanKeeps(lib: Library, args: seq<string>, s: Scanned, f: Flag)
    requires Scan(lib, args, s).Some?
    ensures var t := Scan(lib, args, s).value;
            && s.seen <= t.seen
            && ((forall g :: Shares(f, g) && g in t.seen ==> g in s.seen) ==> SettingOf(t.options, f) == SettingOf(s.options, f))
    decreases |args|
  {
    if args == [] {
    } else {
      var step := StepOf(lib, args[0], Following(args), s);
      StepKeeps(lib, args[0], Following(args), s, f);
      ScanKeeps(lib, args[step.tokens..], step.scanned, f);
    }
  }

  lemma SameSays(lib: Library, token: string, next: Option<string>, f: Flag, o: Options, p: Options)
    requires Says(lib, token, next, f, o) && SettingOf(o, f) == SettingOf(p, f)
    ensures Says(lib, token, next, f, p)
  {
  }

  function NextOf(args: seq<string>, i: nat): Option<string> {
    if i + 1 < |args| then Some(args[i + 1]) else None
  }

  /** What the first token says is what the accepted options hold. */
  lemma FirstSays(lib: Library, args: seq<string>, s: Scanned, f: Flag)
    requires args != [] && Scan(lib, args, s).Some? && Names(args[0], f)
    requires var seen := Scan(lib, args, s).value.seen; !(Clear in seen && NoClear in seen)
    ensures Says(lib, args[0], Following(args), f, Scan(lib, args, s).value.options)
  {
    var step, t := StepOf(lib, args[0], Following(args), s), Scan(lib, args, s).value;
    StepSays(lib, args[0], Following(args), s, f);
    ScanKeeps(lib, args[step.tokens..], step.scanned, f);
    assert forall g :: Shares(f, g) && g in t.seen ==> g in step.scanned.seen;
    SameSays(lib, args[0], Following(args), f, step.scanned.options, t.options);
  }

  /** What a token says is what the accepted options hold. */
  lemma {:induction false} ScanSays(lib: Library, args: seq<string>, s: Scanned, i: nat, f: Flag)
    requires Scan(lib, args, s).Some? && i < |args| && Names(args[i], f)
    requires var seen := Scan(lib, args, s).value.seen; !(Clear in seen && NoClear in seen)
    ensures Says(lib, args[i], NextOf(args, i), f, Scan(lib, args, s).value.options)
    decreases |args|
  {
    if i == 0 {
      FirstSays(lib, args, s, f);
    } else {
      var step := StepOf(lib, args[0], Following(args), s);
      var rest := args[step.tokens..];
      if i < step.tokens { NamesOne(args[i], f, f); }
      assert rest[i - step.tokens] == args[i] && NextOf(rest, i - step.tokens) == NextOf(args, i);
      ScanSays(lib, rest, step.scanned, i - step.tokens, f);
    }
  }

  /** Accepted arguments: every option given is stored as given, each one not given keeps
      its default, and the options agree with one another. */
  lemma AcceptedAsGiven(lib: Library, defaults: Options, args: seq<string>, o: Options)
    requires Parse(lib, defaults, args) == Some(o)
    ensures forall i: nat, f :: i < |args| && Names(args[i], f) ==> Says(lib, args[i], NextOf(args, i), f, o)
    ensures forall f :: (forall g :: Shares(f, g) ==> !Given(args, g)) ==> SettingOf(o, f) == SettingOf(defaults, f)
    ensures o.interval <= o.duration && !(Given(args, Clear) && Given(args, NoClear))
  {
    var s := Scanned(defaults, {});
    forall f
      ensures f in Scan(lib, args, s).value.seen <==> Given(args, f)
    {
      SeenIsGiven(lib, args, s, f);
    }
    forall i: nat, f | i < |args| && Names(args[i], f)
      ensures Says(lib, args[i], NextOf(args, i), f, o)
    {
      ScanSays(lib, args, s, i, f);
    }
    forall f | forall g :: Shares(f, g) ==> !Given(args, g)
      ensures SettingOf(o, f) == SettingOf(defaults, f)
    {
      ScanKeeps(lib, args, s, f);
    }
  }

  /** One option written out, with a value unless it is a switch. */
  datatype Written = Written(flag: Flag, value: string)

  function TokensOf(w: Written): seq<string> {
    if IsBoolean(w.flag) then [Text(w.flag)] else [Text(w.flag), w.value]
  }

  function Tokens(ws: seq<Written>): seq<string> {
    if ws == [] then [] else TokensOf(ws[0]) + Tokens(ws[1..])
  }

  function FlagsOf(ws: seq<Written>): set<Flag> {
    if ws == [] then {} else {ws[0].flag} + FlagsOf(ws[1..])
  }

  /** No option is written twice. */
  predicate Different(ws: seq<Written>) {
    ws != [] ==> ws[0].flag !in FlagsOf(ws[1..]) && Different(ws[1..])
  }

  /** A value that the option can be set to. */
  predicate Settable(lib: Library, w: Written) {
    IsBoolean(w.flag) || (!HasPrefix(w.value, "--") && SetValue(lib, TOP_DEFAULTS, w.flag, Trim(w.value)).Some?)
  }

  lemma WrittenStep(lib: Library, w: Written, rest: seq<string>, s: Scanned)
    requires w.flag !in s.seen && Settable(lib, w)
    ensures var all := TokensOf(w) + rest;
            var step := StepOf(lib, all[0], Following(all), s);
            step.Used? && step.scanned.seen == s.seen + {w.flag} && all[step.tokens..] == rest
  {
    FlagOfText(w.flag);
    var all := TokensOf(w) + rest;
    assert all[|TokensOf(w)|..] == rest;
    SetAnywhere(lib, s.options, w.flag, Trim(w.value));
  }

  lemma SetAnywhere(lib: Library, o: Options, f: Flag, value: string)
    ensures SetValue(lib, o, f, value).Some? <==> SetValue(lib, TOP_DEFAULTS, f, value).Some?
  {
  }

  /** Different options with values they can be set to are scanned. */
  lemma {:induction false} WrittenIsScanned(lib: Library, ws: seq<Written>, s: Scanned)
    requires (forall i :: 0 <= i < |ws| ==> Settable(lib, ws[i])) && Different(ws) && FlagsOf(ws) !! s.seen
    ensures Scan(lib, Tokens(ws), s).Some? && Scan(lib, Tokens(ws), s).value.seen == s.seen + FlagsOf(ws)
  {
    if ws == [] {
    } else {
      var all := Tokens(ws);
      WrittenStep(lib, ws[0], Tokens(ws[1..]), s);
      WrittenIsScanned(lib, ws[1..], StepOf(lib, all[0], Following(all), s).scanned);
    }
  }

  /** Any choice of different options with usable values is accepted, unless the interval
      comes out longer than the duration or both screen switches are given. */
  lemma WrittenIsAccepted(lib: Library, defaults: Options, ws: seq<Written>)
    requires (forall i :: 0 <= i < |ws| ==> Settable(lib, ws[i])) && Different(ws)
    ensures Scan(lib, Tokens(ws), Scanned(defaults, {})).Some?
    ensures var options := Scan(lib, Tokens(ws), Scanned(defaults, {})).value.options;
            Parse(lib, defaults, Tokens(ws))
            == if options.interval > options.duration || {Clear, NoClear} <= FlagsOf(ws) then None else Some(options)
  {
    WrittenIsScanned(lib, ws, Scanned(defaults, {}));
  }

  /** Without arguments: the defaults of `top`, and those of `monitor`. */
  lemma NothingGiven(lib: Library)
    requires ReadsDefaults(lib)
    ensures Parse(lib, TOP_DEFAULTS, [])
            == Some(Options(3_000_000_000, 1_000_000_000, 5_000_000_000, 0, 0, false, false, true, "pressure"))
    ensures Parse(lib, TOP_DEFAULTS, [] + Added([]))
            == Some(Options(5_000_000_000, 1_000_000_000, 7_000_000_000, 200_000_000, 0, true, true, true, "pressure"))
  {
    MonitorIsTopWithDefaults(lib, []);
  }
}
