/** Names of block devices and operations, and the sorted per-device listing of a report. */
module Devices {
  import opened Words
  import opened Sorting
  import opened Labels
  import opened Histogram

  datatype Operation = Read | Write | Flush | Discard | Unknown

  datatype DeviceOperation = DeviceOperation(device: string, operation: Operation)

  /** The operation a text names; lower is the library's lower-casing of a text. */
  function NormalizeOperation(lower: string -> string, operation: string): Operation {
    var name := lower(Trim(operation));
    if name == "read" || name == "r" then Read
    else if name == "write" || name == "w" then Write
    else if name == "flush" || name == "f" then Flush
    else if name == "discard" || name == "d" then Discard
    else Unknown
  }

  // ----- device numbers -----

  function Decimal(n: nat): (s: string)
    ensures s != "" && forall i :: 0 <= i < |s| ==> '0' <= s[i] <= '9'
  {
    var digit := ('0' as int + n % 10) as char;
    if n < 10 then [digit] else Decimal(n / 10) + [digit]
  }

  /** A kernel device number as it is shown. */
  function DeviceNumber(major: u32, minor: u32): string {
    Decimal(major) + ":" + Decimal(minor)
  }

  lemma {:induction false} DecimalInjective(m: nat, n: nat)
    requires Decimal(m) == Decimal(n)
    ensures m == n
  {
    var s, t := Decimal(m), Decimal(n);
    assert s[|s| - 1] == ('0' as int + m % 10) as char && t[|t| - 1] == ('0' as int + n % 10) as char;
    assert m % 10 == n % 10;
    if m < 10 || n < 10 {
      assert |s| == 1 <==> m < 10;
      assert |t| == 1 <==> n < 10;
    } else {
      assert s[..|s| - 1] == Decimal(m / 10) && t[..|t| - 1] == Decimal(n / 10);
      DecimalInjective(m / 10, n / 10);
    }
  }

  /** Different device numbers are shown differently. */
  lemma DeviceNumberInjective(a: u32, b: u32, c: u32, d: u32)
    requires DeviceNumber(a, b) == DeviceNumber(c, d)
    ensures a == c && b == d
  {
    SameColon(Decimal(a), Decimal(b), Decimal(c), Decimal(d));
    DecimalInjective(a, c);
    DecimalInjective(b, d);
  }

  lemma SameColon(a: string, b: string, c: string, d: string)
    requires a + ":" + b == c + ":" + d && ':' !in a && ':' !in c
    ensures a == c && b == d
  {
    ColonAt(a, b, c, d);
    ColonAt(c, d, a, b);
    var s, t := a + ":" + b, c + ":" + d;
    assert s[..|a|] == a && t[..|c|] == c;
    assert s[|a| + 1..] == b && t[|c| + 1..] == d;
  }

  /** The colon after a text stands in none that has no colon. */
  lemma ColonAt(a: string, b: string, c: string, d: string)
    requires a + ":" + b == c + ":" + d && ':' !in c
    ensures |c| <= |a|
  {
    var s := a + ":" + b;
    forall i: nat | i < |c|
      ensures s[i] != ':'
    {
      assert (c + ":" + d)[i] == c[i];
    }
    assert s[|a|] == ':';
  }

  /** The decimal text of a number reads as the number, and has no leading zero. */
  lemma {:induction false} DecimalReads(n: nat)
    ensures Whole(Decimal(n)) == n && (n > 0 ==> Decimal(n)[0] != '0')
  {
    var digit := ('0' as int + n % 10) as char;
    assert Digit(digit) == n % 10;
    if n < 10 {
      OneMoreDigit([], digit);
      assert [] + [digit] == [digit];
    } else {
      DecimalReads(n / 10);
      OneMoreDigit(Decimal(n / 10), digit);
    }
  }

  /** A device number shows the major number before the colon and the minor one after it. */
  lemma DeviceNumberReads(major: u32, minor: u32)
    ensures var text := DeviceNumber(major, minor);
            Whole(Before(text, ':')) == major && Whole(After(text, ':')) == minor
  {
    DecimalReads(major);
    DecimalReads(minor);
    Cut(Decimal(major), ':', Decimal(minor));
  }

  // ----- the listing -----

  /** One line of the listing; its figures and buckets are those of the totals. */
  datatype DeviceSummary = DeviceSummary(key: DeviceOperation, totals: Totals)

  function OperationOrder(op: Operation): nat {
    match op
    case Read => 0
    case Write => 1
    case Flush => 2
    case Discard => 3
    case Unknown => 4
  }

  predicate KeyBefore(a: DeviceOperation, b: DeviceOperation) {
    if a.device != b.device then Less(a.device, b.device) else OperationOrder(a.operation) < OperationOrder(b.operation)
  }

  lemma KeysOrdered(a: DeviceOperation, b: DeviceOperation)
    ensures a != b ==> KeyBefore(a, b) || KeyBefore(b, a)
    ensures !(KeyBefore(a, b) && KeyBefore(b, a))
  {
    LessTotal(a.device, b.device);
  }

  lemma KeysTransitive(a: DeviceOperation, b: DeviceOperation, c: DeviceOperation)
    requires KeyBefore(a, b) && KeyBefore(b, c)
    ensures KeyBefore(a, c)
  {
    if Less(a.device, b.device) && Less(b.device, c.device) { LessTransitive(a.device, b.device, c.device); }
    LessTotal(a.device, c.device);
    LessTotal(a.device, b.device);
    LessTotal(b.device, c.device);
  }

  ghost predicate KeysIncrease(keys: seq<DeviceOperation>) {
    forall i, j :: 0 <= i < j < |keys| ==> KeyBefore(keys[i], keys[j])
  }

  function InsertKey(key: DeviceOperation, keys: seq<DeviceOperation>): seq<DeviceOperation> {
    if keys == [] || KeyBefore(key, keys[0]) then [key] + keys else [keys[0]] + InsertKey(key, keys[1..])
  }

  lemma {:induction false} InsertKeyKeeps(key: DeviceOperation, keys: seq<DeviceOperation>)
    requires KeysIncrease(keys) && key !in keys
    ensures KeysIncrease(InsertKey(key, keys))
    ensures forall k :: k in InsertKey(key, keys) <==> k in keys || k == key
  {
    if keys == [] {
    } else if KeyBefore(key, keys[0]) {
      forall j | 0 <= j < |keys|
        ensures KeyBefore(key, keys[j])
      {
        if j > 0 { KeysTransitive(key, keys[0], keys[j]); }
      }
    } else {
      var rest := InsertKey(key, keys[1..]);
      assert keys == [keys[0]] + keys[1..];
      KeysOrdered(key, keys[0]);
      InsertKeyKeeps(key, keys[1..]);
      forall j | 0 <= j < |rest|
        ensures KeyBefore(keys[0], rest[j])
      {
        assert rest[j] in rest;
        assert rest[j] == key || rest[j] in keys[1..];
      }
    }
  }

  ghost function KeySet(list: seq<DeviceSummary>): set<DeviceOperation> {
    set line | line in list :: line.key
  }

  ghost predicate LinesIncrease(list: seq<DeviceSummary>) {
    forall i, j :: 0 <= i < j < |list| ==> KeyBefore(list[i].key, list[j].key)
  }

  /** The list has one line for each entry, in increasing order of device and operation. */
  ghost predicate Lists(list: seq<DeviceSummary>, m: map<DeviceOperation, Totals>) {
    && LinesIncrease(list) && KeySet(list) == m.Keys
    && forall i: nat :: i < |list| ==> list[i].key in m && list[i].totals == m[list[i].key]
  }

  /** The keys of a map, in increasing order. */
  method SortedDeviceKeys(m: map<DeviceOperation, Totals>) returns (keys: seq<DeviceOperation>)
    ensures KeysIncrease(keys) && forall key :: key in keys <==> key in m
  {
    keys := [];
    var left := m.Keys;
    while left != {}
      invariant left <= m.Keys && KeysIncrease(keys)
      invariant forall key :: key in keys <==> key in m.Keys - left
      decreases |left|
    {
      var key :| key in left;
      InsertKeyKeeps(key, keys);
      keys := InsertKey(key, keys);
      left := left - {key};
    }
  }

  method DeviceOperationSummaries(m: map<DeviceOperation, Totals>) returns (list: seq<DeviceSummary>)
    ensures Lists(list, m)
  {
    var keys := SortedDeviceKeys(m);
    list := [];
    for i := 0 to |keys|
      invariant |list| == i
      invariant forall j :: 0 <= j < i ==> list[j].key == keys[j] && keys[j] in m && list[j].totals == m[keys[j]]
    {
      assert keys[i] in keys;
      list := list + [DeviceSummary(keys[i], m[keys[i]])];
    }
    ListsKeys(list, keys, m);
  }

  lemma ListsKeys(list: seq<DeviceSummary>, keys: seq<DeviceOperation>, m: map<DeviceOperation, Totals>)
    requires KeysIncrease(keys) && forall key :: key in keys <==> key in m
    requires |list| == |keys|
    requires forall j :: 0 <= j < |keys| ==> list[j].key == keys[j] && keys[j] in m && list[j].totals == m[keys[j]]
    ensures Lists(list, m)
  {
    forall key | key in m
      ensures key in KeySet(list)
    {
      assert key in keys;
      var i :| 0 <= i < |keys| && keys[i] == key;
      assert list[i] in list;
    }
  }

  /** A map has one listing. */
  lemma {:induction false} ListingUnique(s: seq<DeviceSummary>, t: seq<DeviceSummary>, m: map<DeviceOperation, Totals>)
    requires Lists(s, m) && Lists(t, m)
    ensures s == t
    decreases |s|
  {
    EmptyListing(s, m);
    EmptyListing(t, m);
    if s == [] {
    } else {
      SameFirst(s, t, m);
      TailLists(s, m);
      TailLists(t, m);
      ListingUnique(s[1..], t[1..], m - {s[0].key});
      assert s == [s[0]] + s[1..] && t == [t[0]] + t[1..];
    }
  }

  lemma EmptyListing(s: seq<DeviceSummary>, m: map<DeviceOperation, Totals>)
    requires Lists(s, m)
    ensures s == [] <==> m.Keys == {}
  {
    if s != [] { assert s[0].key in m.Keys; }
  }

  lemma SameFirst(s: seq<DeviceSummary>, t: seq<DeviceSummary>, m: map<DeviceOperation, Totals>)
    requires Lists(s, m) && Lists(t, m) && s != [] && t != []
    ensures s[0] == t[0]
  {
    FirstIsLeast(s, t[0].key);
    FirstIsLeast(t, s[0].key);
    KeysOrdered(s[0].key, t[0].key);
  }

  lemma FirstIsLeast(s: seq<DeviceSummary>, key: DeviceOperation)
    requires LinesIncrease(s) && s != [] && key in KeySet(s)
    ensures s[0].key == key || KeyBefore(s[0].key, key)
  {
    var line :| line in s && line.key == key;
    var i :| 0 <= i < |s| && s[i] == line;
    if i > 0 { assert KeyBefore(s[0].key, s[i].key); }
  }

  lemma TailKeys(s: seq<DeviceSummary>)
    requires s != [] && LinesIncrease(s)
    ensures LinesIncrease(s[1..]) && KeySet(s[1..]) == KeySet(s) - {s[0].key}
  {
    assert s == [s[0]] + s[1..];
    forall i: nat | i < |s[1..]|
      ensures s[1..][i].key != s[0].key
    {
      KeysOrdered(s[0].key, s[i + 1].key);
    }
    forall line | line in s[1..]
      ensures line.key != s[0].key
    {
      var i: nat :| i < |s[1..]| && s[1..][i] == line;
    }
  }

  lemma TailLists(s: seq<DeviceSummary>, m: map<DeviceOperation, Totals>)
    requires s != [] && Lists(s, m)
    ensures Lists(s[1..], m - {s[0].key})
  {
    TailKeys(s);
    forall i: nat | i < |s[1..]|
      ensures s[1..][i].key in m - {s[0].key} && s[1..][i].totals == (m - {s[0].key})[s[1..][i].key]
    {
      assert s[1..][i] in s[1..];
      assert s[1..][i].key in KeySet(s[1..]);
    }
  }
}
