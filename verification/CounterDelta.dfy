/** Counter differences between two samples, joined by device identity. */
module CounterDelta {
  import opened Words
  import opened Sorting
  import Labels
  import Devices

  /** The two kinds of samples: cgroup io.stat rows and virsh block rows. */
  datatype Source = CgroupIO | VirshBlock

  /** The cumulative counters of a row, in their fixed order. The last two of a cgroup row,
      the discard counters, may be absent. */
  type Counters = seq<Option<u64>>

  datatype Row = Row(name: string, counters: Counters)

  function Width(source: Source): nat {
    if source == CgroupIO then 6 else 8
  }

  // ----- identities -----

  function Digits(s: string): Option<nat> {
    if s == "" then Some(0)
    else
      var front := Digits(s[..|s| - 1]);
      var c := s[|s| - 1];
      if front.None? || c < '0' || c > '9' then None else Some(10 * front.value + (c as int - '0' as int))
  }

  predicate IsU32(s: string) {
    s != "" && Digits(s).Some? && Digits(s).value < 0x1_0000_0000
  }

  /** Where a colon first stands, or the length. */
  function Colon(s: string): (i: nat)
    ensures i <= |s| && (i < |s| ==> s[i] == ':')
  {
    if s == "" then 0 else if s[0] == ':' then 0 else 1 + Colon(s[1..])
  }

  predicate ValidMajorMinor(s: string) {
    Colon(s) < |s| && IsU32(s[..Colon(s)]) && IsU32(s[Colon(s) + 1..])
  }

  /** The identity a row is joined by, unless it has none. */
  function Identity(source: Source, name: string): Option<string> {
    match source
    case CgroupIO => if ValidMajorMinor(name) then Some(name) else None
    case VirshBlock => if Trim(name) != "" then Some(Trim(name)) else None
  }

  // ----- what an identity is -----

  predicate AllDigits(s: string) {
    forall i :: 0 <= i < |s| ==> '0' <= s[i] <= '9'
  }

  /** A text of digits reads as the number it shows; any other text is not a number. */
  lemma {:induction false} DigitsRead(s: string)
    ensures Digits(s) == if AllDigits(s) then Some(Labels.Whole(s)) else None
  {
    if s == "" {
    } else {
      DigitsRead(s[..|s| - 1]);
      assert AllDigits(s) <==> AllDigits(s[..|s| - 1]) && '0' <= s[|s| - 1] <= '9';
    }
  }

  lemma {:induction false} ColonCuts(s: string)
    ensures Colon(s) < |s| <==> ':' in s
    ensures Labels.Before(s, ':') == s[..Colon(s)]
    ensures ':' in s ==> Labels.After(s, ':') == s[Colon(s) + 1..]
  {
    if s == "" {
    } else {
      ColonCuts(s[1..]);
    }
  }

  /** The number of a device: two texts of digits below 2^32 around the first colon. */
  ghost predicate ShowsDevice(s: string) {
    var major, minor := Labels.Before(s, ':'), Labels.After(s, ':');
    && ':' in s && major != "" && minor != "" && AllDigits(major) && AllDigits(minor)
    && Labels.Whole(major) < 0x1_0000_0000 && Labels.Whole(minor) < 0x1_0000_0000
  }

  /** A cgroup row is joined by its name, exactly when that shows a device; a virsh row by
      its trimmed name, unless that is blank. */
  lemma IdentityIsShown(name: string)
    ensures Identity(CgroupIO, name) == if ShowsDevice(name) then Some(name) else None
    ensures Identity(VirshBlock, name) == if forall i :: 0 <= i < |name| ==> IsSpace(name[i]) then None else Some(Trim(name))
  {
    ColonCuts(name);
    DigitsRead(Labels.Before(name, ':'));
    DigitsRead(Labels.After(name, ':'));
    TrimBlank(name);
  }

  /** Every device number of the kernel is an identity as it is shown. */
  lemma ShownIsIdentity(major: u32, minor: u32)
    ensures Identity(CgroupIO, Devices.DeviceNumber(major, minor)) == Some(Devices.DeviceNumber(major, minor))
  {
    var name := Devices.DeviceNumber(major, minor);
    Devices.DecimalReads(major);
    Devices.DecimalReads(minor);
    DigitsShow(name, Devices.Decimal(major), Devices.Decimal(minor));
    IdentityIsShown(name);
  }

  lemma DigitsShow(name: string, major: string, minor: string)
    requires name == major + [':'] + minor && major != "" && minor != "" && AllDigits(major) && AllDigits(minor)
    requires Labels.Whole(major) < 0x1_0000_0000 && Labels.Whole(minor) < 0x1_0000_0000
    ensures ShowsDevice(name)
  {
    Labels.Cut(major, ':', minor);
    assert name[|major|] == ':';
  }

  predicate WellFormed(source: Source, rows: seq<Row>) {
    forall i :: 0 <= i < |rows| ==> |rows[i].counters| == Width(source)
  }

  function Identities(source: Source, rows: seq<Row>): seq<Option<string>> {
    seq(|rows|, i requires 0 <= i < |rows| => Identity(source, rows[i].name))
  }

  /** Every row has an identity, and no two have the same. */
  ghost predicate Indexable(ids: seq<Option<string>>) {
    && (forall i :: 0 <= i < |ids| ==> ids[i].Some?)
    && (forall i, j :: 0 <= i < j < |ids| ==> ids[i] != ids[j])
  }

  /** The map holds exactly the rows, under their identities. */
  ghost predicate Indexes(ids: seq<Option<string>>, rows: seq<Row>, m: map<string, Counters>)
    requires |ids| == |rows|
  {
    && (forall i :: 0 <= i < |ids| ==> ids[i].Some? && ids[i].value in m && m[ids[i].value] == rows[i].counters)
    && (forall k :: k in m ==> Some(k) in ids)
  }

  datatype IndexError = InvalidIdentity(name: string) | DuplicateIdentity(id: string)

  /** Fails exactly when a row has no identity or repeats one. */
  method IndexCounters(source: Source, rows: seq<Row>) returns (r: Result<map<string, Counters>, IndexError>)
    ensures r.Ok? <==> Indexable(Identities(source, rows))
    ensures r.Ok? ==> Indexes(Identities(source, rows), rows, r.value)
  {
    ghost var ids := Identities(source, rows);
    var indexed: map<string, Counters> := map[];
    for n := 0 to |rows|
      invariant Indexes(ids[..n], rows[..n], indexed) && Indexable(ids[..n])
    {
      var id := Identity(source, rows[n].name);
      assert id == ids[n];
      if id.None? {
        return Err(InvalidIdentity(rows[n].name));
      }
      if id.value in indexed {
        Repeated(ids, n);
        return Err(DuplicateIdentity(id.value));
      }
      AddRow(ids[..n], id.value, rows[..n], rows[n], indexed);
      NextPrefix(ids, n);
      NextPrefix(rows, n);
      indexed := indexed[id.value := rows[n].counters];
    }
    assert ids[..|rows|] == ids && rows[..|rows|] == rows;
    return Ok(indexed);
  }

  lemma Repeated(ids: seq<Option<string>>, n: nat)
    requires n < |ids| && ids[n] in ids[..n]
    ensures !Indexable(ids)
  {
    var i :| 0 <= i < n && ids[..n][i] == ids[n];
    assert ids[i] == ids[n];
  }

  lemma NextPrefix<T>(s: seq<T>, n: nat)
    requires n < |s|
    ensures s[..n + 1] == s[..n] + [s[n]]
  {
  }

  lemma AddRow(ids: seq<Option<string>>, id: string, rows: seq<Row>, row: Row, m: map<string, Counters>)
    requires |ids| == |rows| && Indexes(ids, rows, m) && Indexable(ids) && id !in m
    ensures Indexes(ids + [Some(id)], rows + [row], m[id := row.counters])
    ensures Indexable(ids + [Some(id)])
  {
    assert Some(id) !in ids;
  }

  // ----- the keys of both samples -----

  method UnionSortedKeys(left: map<string, Counters>, right: map<string, Counters>) returns (keys: seq<string>)
    ensures Increasing(keys) && forall k :: k in keys <==> k in left || k in right
  {
    keys := AppendKeys([], left.Keys, {});
    keys := AppendKeys(keys, right.Keys, left.Keys);
    SortDistinct(keys);
    keys := Sort(keys);
  }

  // ----- differences -----

  datatype Status = OK | BaselineMissing | MissingAfter | CounterReset

  datatype Delta = Delta(name: string, status: Status, values: seq<u64>, available: seq<bool>)

  /** Both samples have the counter. */
  predicate Compared(start: Counters, end: Counters, i: nat)
    requires i < |start| == |end|
  {
    start[i].Some? && end[i].Some?
  }

  /** Some compared counter went back. */
  ghost predicate Decreased(start: Counters, end: Counters)
    requires |start| == |end|
  {
    exists i :: 0 <= i < |start| && Compared(start, end, i) && end[i].value < start[i].value
  }

  /** The row of two samples of one device. */
  ghost predicate IsDelta(start: Option<Counters>, end: Option<Counters>, width: nat, d: Delta)
    requires start.Some? ==> |start.value| == width
    requires end.Some? ==> |end.value| == width
  {
    && |d.values| == |d.available| == width
    && (d.status == BaselineMissing <==> start.None?)
    && (d.status == MissingAfter <==> start.Some? && end.None?)
    && (d.status == CounterReset <==> start.Some? && end.Some? && Decreased(start.value, end.value))
    && (d.status != OK ==> forall i :: 0 <= i < width ==> d.values[i] == 0)
    && (d.status == OK ==> forall i :: 0 <= i < width ==>
          if Compared(start.value, end.value, i) then start.value[i].value as int + d.values[i] == end.value[i].value
          else d.values[i] == 0)
    && (forall i :: 0 <= i < width ==>
          (d.available[i] <==> start.Some? && end.Some? && Compared(start.value, end.value, i)))
  }

  method ValidationCounterDelta(before: u64, after: u64) returns (delta: u64, reset: bool)
    ensures reset <==> after < before
    ensures if reset then delta == 0 else before as int + delta == after
  {
    if after < before {
      return 0, true;
    }
    return after - before, false;
  }

  method DeltaOf(name: string, start: Option<Counters>, end: Option<Counters>, width: nat) returns (d: Delta)
    requires start.Some? ==> |start.value| == width
    requires end.Some? ==> |end.value| == width
    ensures d.name == name && IsDelta(start, end, width, d)
  {
    var zeros := seq(width, _ => 0);
    var none := seq(width, _ => false);
    if start.None? {
      return Delta(name, BaselineMissing, zeros, none);
    }
    if end.None? {
      return Delta(name, MissingAfter, zeros, none);
    }
    var a, b := start.value, end.value;
    var values, available, reset := zeros, none, false;
    for i := 0 to width
      invariant |values| == |available| == width
      invariant reset <==> exists j :: 0 <= j < i && Compared(a, b, j) && b[j].value < a[j].value
      invariant forall j :: 0 <= j < width ==> (available[j] <==> j < i && Compared(a, b, j))
      invariant forall j :: 0 <= j < width ==>
        if j < i && Compared(a, b, j) && a[j].value <= b[j].value then a[j].value as int + values[j] == b[j].value
        else values[j] == 0
    {
      var both := a[i].Some? && b[i].Some?;
      available := available[i := both];
      if both {
        var value, back := ValidationCounterDelta(a[i].value, b[i].value);
        assert Compared(a, b, i);
        values := values[i := value];
        reset := reset || back;
      }
    }
    if reset {
      return Delta(name, CounterReset, zeros, available);
    }
    return Delta(name, OK, values, available);
  }

  function Get(m: map<string, Counters>, k: string): Option<Counters> {
    if k in m then Some(m[k]) else None
  }

  ghost predicate AllWide(m: map<string, Counters>, width: nat) {
    forall k :: k in m ==> |m[k]| == width
  }

  function Names(deltas: seq<Delta>): seq<string> {
    seq(|deltas|, i requires 0 <= i < |deltas| => deltas[i].name)
  }

  /** The join of two indexed samples: one row for each identity in either, in strictly
      increasing order, each the difference of the two samples. */
  ghost predicate IsJoin(before: map<string, Counters>, after: map<string, Counters>, width: nat, deltas: seq<Delta>)
    requires AllWide(before, width) && AllWide(after, width)
  {
    && Increasing(Names(deltas))
    && (forall k :: k in Names(deltas) <==> k in before || k in after)
    && (forall i :: 0 <= i < |deltas| ==>
          IsDelta(Get(before, deltas[i].name), Get(after, deltas[i].name), width, deltas[i]))
  }

  lemma IndexIsWide(source: Source, rows: seq<Row>, m: map<string, Counters>)
    requires WellFormed(source, rows) && Indexes(Identities(source, rows), rows, m)
    ensures AllWide(m, Width(source))
  {
    var ids := Identities(source, rows);
    forall k | k in m
      ensures |m[k]| == Width(source)
    {
      var i :| 0 <= i < |ids| && ids[i] == Some(k);
      assert m[ids[i].value] == rows[i].counters;
    }
  }

  method JoinSamples(before: map<string, Counters>, after: map<string, Counters>, width: nat) returns (deltas: seq<Delta>)
    requires AllWide(before, width) && AllWide(after, width)
    ensures IsJoin(before, after, width, deltas)
  {
    var keys := UnionSortedKeys(before, after);
    deltas := [];
    for i := 0 to |keys|
      invariant |deltas| == i && forall j :: 0 <= j < i ==> deltas[j].name == keys[j]
      invariant forall j :: 0 <= j < i ==>
        IsDelta(Get(before, deltas[j].name), Get(after, deltas[j].name), width, deltas[j])
    {
      var delta := DeltaOf(keys[i], Get(before, keys[i]), Get(after, keys[i]), width);
      deltas := deltas + [delta];
    }
    assert Names(deltas) == keys;
  }

  /** The rows of two samples; fails exactly when one of them has an invalid or repeated
      identity. */
  method DeltaSamples(source: Source, before: seq<Row>, after: seq<Row>)
    returns (r: Result<seq<Delta>, IndexError>, ghost baseline: map<string, Counters>, ghost current: map<string, Counters>)
    requires WellFormed(source, before) && WellFormed(source, after)
    ensures r.Ok? <==> Indexable(Identities(source, before)) && Indexable(Identities(source, after))
    ensures r.Ok? ==> Indexes(Identities(source, before), before, baseline)
    ensures r.Ok? ==> Indexes(Identities(source, after), after, current)
    ensures r.Ok? ==> AllWide(baseline, Width(source)) && AllWide(current, Width(source))
                      && IsJoin(baseline, current, Width(source), r.value)
  {
    baseline, current := map[], map[];
    var starts := IndexCounters(source, before);
    if starts.Err? {
      return Err(starts.error), baseline, current;
    }
    var ends := IndexCounters(source, after);
    if ends.Err? {
      return Err(ends.error), baseline, current;
    }
    baseline, current := starts.value, ends.value;
    IndexIsWide(source, before, starts.value);
    IndexIsWide(source, after, ends.value);
    var deltas := JoinSamples(starts.value, ends.value, Width(source));
    r := Ok(deltas);
  }

  // ----- what the join determines -----

  lemma DeltaUnique(start: Option<Counters>, end: Option<Counters>, width: nat, d: Delta, e: Delta)
    requires start.Some? ==> |start.value| == width
    requires end.Some? ==> |end.value| == width
    requires IsDelta(start, end, width, d) && IsDelta(start, end, width, e) && d.name == e.name
    ensures d == e
  {
    assert d.status == e.status;
    assert d.values == e.values;
    assert d.available == e.available;
  }

  /** Two samples have one join, whatever the order of their rows. */
  lemma JoinUnique(before: map<string, Counters>, after: map<string, Counters>, width: nat, x: seq<Delta>, y: seq<Delta>)
    requires AllWide(before, width) && AllWide(after, width)
    requires IsJoin(before, after, width, x) && IsJoin(before, after, width, y)
    ensures x == y
  {
    IncreasingUnique(Names(x), Names(y));
    assert |x| == |Names(x)| == |Names(y)| == |y|;
    forall i | 0 <= i < |x|
      ensures x[i] == y[i]
    {
      assert Names(x)[i] == Names(y)[i];
      DeltaUnique(Get(before, x[i].name), Get(after, x[i].name), width, x[i], y[i]);
    }
  }

  lemma IndexIncluded(source: Source, rows: seq<Row>, others: seq<Row>, m: map<string, Counters>, n: map<string, Counters>)
    requires Indexes(Identities(source, rows), rows, m) && Indexes(Identities(source, others), others, n)
    requires multiset(rows) == multiset(others)
    ensures forall k :: k in m ==> k in n && n[k] == m[k]
  {
    var ids := Identities(source, rows);
    forall k | k in m
      ensures k in n && n[k] == m[k]
    {
      var i :| 0 <= i < |ids| && ids[i] == Some(k);
      assert rows[i] in multiset(others);
      var j :| 0 <= j < |others| && others[j] == rows[i];
      IndexedAt(source, rows, m, i);
      IndexedAt(source, others, n, j);
    }
  }

  lemma IndexedAt(source: Source, rows: seq<Row>, m: map<string, Counters>, i: nat)
    requires Indexes(Identities(source, rows), rows, m) && i < |rows|
    ensures var id := Identity(source, rows[i].name);
            id.Some? && id.value in m && m[id.value] == rows[i].counters
  {
    assert Identities(source, rows)[i] == Identity(source, rows[i].name);
  }

  /** The index of a sample does not depend on the order of its rows. */
  lemma IndexUnique(source: Source, rows: seq<Row>, others: seq<Row>, m: map<string, Counters>, n: map<string, Counters>)
    requires Indexes(Identities(source, rows), rows, m) && Indexes(Identities(source, others), others, n)
    requires multiset(rows) == multiset(others)
    ensures m == n
  {
    IndexIncluded(source, rows, others, m, n);
    IndexIncluded(source, others, rows, n, m);
  }

  /** Consecutive windows add up: when neither has a reset, nor has the whole, and the
      difference over the whole is the sum, for every counter all three samples have. */
  lemma WindowsAddUp(a: Counters, b: Counters, c: Counters, first: Delta, second: Delta, whole: Delta, i: nat)
    requires |a| == |b| == |c| && i < |a|
    requires forall j :: 0 <= j < |a| ==> (a[j].Some? <==> b[j].Some?) && (b[j].Some? <==> c[j].Some?)
    requires IsDelta(Some(a), Some(b), |a|, first) && IsDelta(Some(b), Some(c), |a|, second)
    requires IsDelta(Some(a), Some(c), |a|, whole) && first.status == OK && second.status == OK
    ensures whole.status == OK && whole.values[i] == first.values[i] + second.values[i]
  {
    forall j | 0 <= j < |a| && Compared(a, c, j)
      ensures a[j].value <= c[j].value
    {
      assert Compared(a, b, j) && Compared(b, c, j);
    }
    assert !Decreased(a, c);
    assert Compared(a, c, i) <==> Compared(a, b, i) && Compared(b, c, i);
  }

  // ----- the counters by name -----

  datatype IoStat = IoStat(
    readBytes: u64, writeBytes: u64, readOps: u64, writeOps: u64, discardBytes: Option<u64>, discardOps: Option<u64>)

  function IoCounters(s: IoStat): Counters {
    [Some(s.readBytes), Some(s.writeBytes), Some(s.readOps), Some(s.writeOps), s.discardBytes, s.discardOps]
  }

  datatype BlockStat = BlockStat(
    readBytes: u64, writeBytes: u64, readOps: u64, writeOps: u64,
    readTimeNs: u64, writeTimeNs: u64, flushOps: u64, flushTimeNs: u64)

  function BlockCounters(s: BlockStat): Counters {
    [Some(s.readBytes), Some(s.writeBytes), Some(s.readOps), Some(s.writeOps),
     Some(s.readTimeNs), Some(s.writeTimeNs), Some(s.flushOps), Some(s.flushTimeNs)]
  }

  /** The counter went back between two samples that both have it. */
  predicate WentBack(before: Option<u64>, after: Option<u64>) {
    before.Some? && after.Some? && after.value < before.value
  }

  /** What a counter gained, when both samples have it. */
  function Gained(before: Option<u64>, after: Option<u64>): int {
    if before.Some? && after.Some? then after.value as int - before.value else 0
  }

  lemma DeltaByCounter(start: Counters, end: Counters, d: Delta)
    requires |start| == |end| && IsDelta(Some(start), Some(end), |start|, d)
    ensures d.status == CounterReset <==> exists i :: 0 <= i < |start| && WentBack(start[i], end[i])
    ensures d.status == OK || d.status == CounterReset
    ensures forall i :: 0 <= i < |start| ==> d.values[i] == if d.status == CounterReset then 0 else Gained(start[i], end[i])
  {
    forall i | 0 <= i < |start|
      ensures WentBack(start[i], end[i]) <==> Compared(start, end, i) && end[i].value < start[i].value
    {
    }
  }

  /** The difference of two cgroup rows, counter by counter: a reset when any of the six
      went back, a missing discard counter in either row not compared. */
  lemma IoStatDelta(a: IoStat, b: IoStat, d: Delta)
    requires IsDelta(Some(IoCounters(a)), Some(IoCounters(b)), Width(CgroupIO), d)
    ensures d.status == CounterReset <==>
              || b.readBytes < a.readBytes || b.writeBytes < a.writeBytes || b.readOps < a.readOps || b.writeOps < a.writeOps
              || WentBack(a.discardBytes, b.discardBytes) || WentBack(a.discardOps, b.discardOps)
    ensures d.status == OK || d.status == CounterReset
    ensures d.values ==
            if d.status == CounterReset then [0, 0, 0, 0, 0, 0]
            else [b.readBytes - a.readBytes, b.writeBytes - a.writeBytes, b.readOps - a.readOps, b.writeOps - a.writeOps,
                  Gained(a.discardBytes, b.discardBytes), Gained(a.discardOps, b.discardOps)]
    ensures d.available == [true, true, true, true, a.discardBytes.Some? && b.discardBytes.Some?,
                            a.discardOps.Some? && b.discardOps.Some?]
  {
    var start, end := IoCounters(a), IoCounters(b);
    DeltaByCounter(start, end, d);
    assert WentBack(start[0], end[0]) <==> b.readBytes < a.readBytes;
    assert WentBack(start[1], end[1]) <==> b.writeBytes < a.writeBytes;
    assert WentBack(start[2], end[2]) <==> b.readOps < a.readOps;
    assert WentBack(start[3], end[3]) <==> b.writeOps < a.writeOps;
    assert start[4] == a.discardBytes && start[5] == a.discardOps && end[4] == b.discardBytes && end[5] == b.discardOps;
  }

  /** The difference of two virsh rows, counter by counter: a reset when any of the eight
      went back. */
  lemma BlockStatDelta(a: BlockStat, b: BlockStat, d: Delta)
    requires IsDelta(Some(BlockCounters(a)), Some(BlockCounters(b)), Width(VirshBlock), d)
    ensures d.status == CounterReset <==>
              || b.readBytes < a.readBytes || b.writeBytes < a.writeBytes || b.readOps < a.readOps || b.writeOps < a.writeOps
              || b.readTimeNs < a.readTimeNs || b.writeTimeNs < a.writeTimeNs
              || b.flushOps < a.flushOps || b.flushTimeNs < a.flushTimeNs
    ensures d.status == OK || d.status == CounterReset
    ensures d.values ==
            if d.status == CounterReset then [0, 0, 0, 0, 0, 0, 0, 0]
            else [b.readBytes - a.readBytes, b.writeBytes - a.writeBytes, b.readOps - a.readOps, b.writeOps - a.writeOps,
                  b.readTimeNs - a.readTimeNs, b.writeTimeNs - a.writeTimeNs,
                  b.flushOps - a.flushOps, b.flushTimeNs - a.flushTimeNs]
  {
    var start, end := BlockCounters(a), BlockCounters(b);
    DeltaByCounter(start, end, d);
    assert WentBack(start[0], end[0]) <==> b.readBytes < a.readBytes;
    assert WentBack(start[1], end[1]) <==> b.writeBytes < a.writeBytes;
    assert WentBack(start[2], end[2]) <==> b.readOps < a.readOps;
    assert WentBack(start[3], end[3]) <==> b.writeOps < a.writeOps;
    assert WentBack(start[4], end[4]) <==> b.readTimeNs < a.readTimeNs;
    assert WentBack(start[5], end[5]) <==> b.writeTimeNs < a.writeTimeNs;
    assert WentBack(start[6], end[6]) <==> b.flushOps < a.flushOps;
    assert WentBack(start[7], end[7]) <==> b.flushTimeNs < a.flushTimeNs;
  }
}
