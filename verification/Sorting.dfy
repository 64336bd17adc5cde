/** Strings in their library order, sorting, prefixes, trimming, and the sorted list of a set. */
module Sorting {
  /** The order of the language's own string comparison, on code points. */
  predicate Less(a: string, b: string) {
    if b == "" then false
    else if a == "" then true
    else if a[0] != b[0] then a[0] < b[0]
    else Less(a[1..], b[1..])
  }

  lemma {:induction false} LessTotal(a: string, b: string)
    ensures Less(a, b) || a == b || Less(b, a)
    ensures !(Less(a, b) && Less(b, a)) && !Less(a, a)
  {
    if a == "" || b == "" || a[0] != b[0] {
    } else {
      LessTotal(a[1..], b[1..]);
      if a[1..] == b[1..] { assert a == [a[0]] + a[1..] == [b[0]] + b[1..] == b; }
    }
    Irreflexive(a);
  }

  lemma {:induction false} Irreflexive(a: string)
    ensures !Less(a, a)
  {
    if a == "" {
    } else {
      Irreflexive(a[1..]);
    }
  }

  lemma {:induction false} LessTransitive(a: string, b: string, c: string)
    requires Less(a, b) && Less(b, c)
    ensures Less(a, c)
  {
    if a == "" || a[0] != b[0] || b[0] != c[0] {
    } else {
      LessTransitive(a[1..], b[1..], c[1..]);
    }
  }

  /** Sorted without duplicates. */
  ghost predicate Increasing(s: seq<string>) {
    forall i, j :: 0 <= i < j < |s| ==> Less(s[i], s[j])
  }

  ghost predicate Ordered(s: seq<string>) {
    forall i, j :: 0 <= i < j < |s| ==> Less(s[i], s[j]) || s[i] == s[j]
  }

  function Insert(x: string, s: seq<string>): seq<string> {
    if s == [] || Less(x, s[0]) then [x] + s else [s[0]] + Insert(x, s[1..])
  }

  function Sort(s: seq<string>): seq<string> {
    if s == [] then [] else Insert(s[0], Sort(s[1..]))
  }

  lemma {:induction false} InsertKeeps(x: string, s: seq<string>)
    requires Ordered(s)
    ensures Ordered(Insert(x, s)) && multiset(Insert(x, s)) == multiset(s) + multiset{x}
  {
    if s == [] || Less(x, s[0]) {
      forall j | 0 <= j < |s|
        ensures Less(x, s[j])
      {
        if j > 0 && s[0] != s[j] { LessTransitive(x, s[0], s[j]); }
      }
    } else {
      InsertKeeps(x, s[1..]);
      assert s == [s[0]] + s[1..];
      var rest := Insert(x, s[1..]);
      forall j | 0 <= j < |rest|
        ensures Less(s[0], rest[j]) || s[0] == rest[j]
      {
        assert rest[j] in multiset(rest);
        if rest[j] == x {
          LessTotal(x, s[0]);
        } else {
          assert rest[j] in s[1..];
        }
      }
    }
  }

  /** Sorting orders a list and keeps its elements. */
  lemma {:induction false} SortSorts(s: seq<string>)
    ensures Ordered(Sort(s)) && multiset(Sort(s)) == multiset(s)
  {
    if s == [] {
    } else {
      SortSorts(s[1..]);
      InsertKeeps(s[0], Sort(s[1..]));
      assert s == [s[0]] + s[1..];
    }
  }

  ghost predicate Distinct(s: seq<string>) {
    forall i, j :: 0 <= i < j < |s| ==> s[i] != s[j]
  }

  lemma {:induction false} DistinctOnce(s: seq<string>)
    ensures Distinct(s) <==> forall x :: multiset(s)[x] <= 1
  {
    if s == [] {
    } else {
      var n := |s| - 1;
      DistinctOnce(s[..n]);
      assert s == s[..n] + [s[n]];
      if Distinct(s) {
        assert s[n] !in s[..n];
        assert multiset(s[..n])[s[n]] == 0;
      } else {
        if Distinct(s[..n]) {
          assert s[n] in s[..n];
          assert s[n] in multiset(s[..n]);
          assert multiset(s)[s[n]] >= 2;
        } else {
          var x :| multiset(s[..n])[x] > 1;
          assert multiset(s)[x] > 1;
        }
      }
    }
  }

  /** Sorting a list without duplicates makes it strictly increasing. */
  lemma SortDistinct(s: seq<string>)
    requires Distinct(s)
    ensures Increasing(Sort(s)) && forall x :: x in Sort(s) <==> x in s
  {
    SortSorts(s);
    DistinctOnce(s);
    DistinctOnce(Sort(s));
    forall x
      ensures x in Sort(s) <==> x in s
    {
      assert x in Sort(s) <==> x in multiset(Sort(s));
      assert x in s <==> x in multiset(s);
    }
  }

  lemma HasMember(s: seq<string>)
    ensures s != [] ==> exists x :: x in s
  {
    if s != [] { assert s[0] in s; }
  }

  lemma Append(keys: seq<string>, key: string)
    requires Distinct(keys) && key !in keys
    ensures Distinct(keys + [key]) && forall k :: k in keys + [key] <==> k in keys || k == key
  {
  }

  /** Appends the keys of a set, in any order, leaving out those already seen. */
  method AppendKeys(keys: seq<string>, more: set<string>, seen: set<string>) returns (all: seq<string>)
    requires Distinct(keys) && forall k :: k in keys <==> k in seen
    ensures Distinct(all) && forall k :: k in all <==> k in seen || k in more
  {
    all := keys;
    var todo := more;
    while todo != {}
      invariant todo <= more && Distinct(all)
      invariant forall k :: k in all <==> k in seen || k in more - todo
      decreases |todo|
    {
      var key :| key in todo;
      if key !in seen {
        Append(all, key);
        all := all + [key];
      }
      todo := todo - {key};
    }
  }

  /** The increasing list of a set. */
  method SortedKeys(keys: set<string>) returns (list: seq<string>)
    ensures Increasing(list) && forall k :: k in list <==> k in keys
  {
    list := AppendKeys([], keys, {});
    SortDistinct(list);
    list := Sort(list);
  }

  /** A set has one increasing list. */
  lemma {:induction false} IncreasingUnique(s: seq<string>, t: seq<string>)
    requires Increasing(s) && Increasing(t) && forall x :: x in s <==> x in t
    ensures s == t
  {
    if s == [] {
      HasMember(t);
    } else {
      assert s[0] in s && s[0] in t;
      assert t[0] in t && t[0] in s;
      if s[0] != t[0] {
        LessTotal(s[0], t[0]);
        assert false;
      }
      forall x
        ensures x in s[1..] <==> x in t[1..]
      {
        TailMembers(s, x);
        TailMembers(t, x);
      }
      IncreasingUnique(s[1..], t[1..]);
    }
  }

  lemma TailMembers(s: seq<string>, x: string)
    requires s != [] && Increasing(s)
    ensures x in s[1..] <==> x in s && x != s[0]
  {
    assert s == [s[0]] + s[1..];
    forall j | 0 <= j < |s[1..]|
      ensures s[1..][j] != s[0]
    {
      assert Less(s[0], s[j + 1]);
      Irreflexive(s[0]);
    }
  }

  // ----- prefixes and trimming -----

  predicate HasPrefix(s: string, prefix: string) {
    |prefix| <= |s| && s[..|prefix|] == prefix
  }

  predicate IsSpace(c: char) {
    || '\t' <= c <= '\r' || c == ' ' || c == '\U{85}' || c == '\U{A0}' || c == '\U{1680}' || '\U{2000}' <= c <= '\U{200A}'
    || c == '\U{2028}' || c == '\U{2029}' || c == '\U{202F}' || c == '\U{205F}' || c == '\U{3000}'
  }

  /** White space by its code points. */
  lemma SpaceCodes(c: char)
    ensures IsSpace(c) <==>
              || c as int in {9, 10, 11, 12, 13, 0x20, 0x85, 0xA0, 0x1680, 0x2028, 0x2029, 0x202F, 0x205F, 0x3000}
              || 0x2000 <= c as int <= 0x200A
  {
  }

  function TrimLeft(s: string): (r: string)
    ensures r == "" || !IsSpace(r[0])
    ensures (s == "" || !IsSpace(s[0])) ==> r == s
    ensures s != "" && !IsSpace(s[|s| - 1]) ==> r != "" && r[|r| - 1] == s[|s| - 1]
  {
    if s != "" && IsSpace(s[0]) then TrimLeft(s[1..]) else s
  }

  function TrimRight(s: string): (r: string)
    ensures r == "" || !IsSpace(r[|r| - 1])
    ensures (s == "" || !IsSpace(s[|s| - 1])) ==> r == s
    ensures s != "" && !IsSpace(s[0]) ==> r != "" && r[0] == s[0]
  {
    if s != "" && IsSpace(s[|s| - 1]) then TrimRight(s[..|s| - 1]) else s
  }

  function Trim(s: string): (r: string)
    ensures r == "" || (!IsSpace(r[0]) && !IsSpace(r[|r| - 1]))
  {
    TrimRight(TrimLeft(s))
  }

  /** Trimming takes everything exactly from a text that is all white space. */
  lemma {:induction false} TrimBlank(s: string)
    ensures Trim(s) == "" <==> forall i :: 0 <= i < |s| ==> IsSpace(s[i])
  {
    if s == "" {
    } else if IsSpace(s[0]) {
      TrimBlank(s[1..]);
      assert forall i :: 0 <= i < |s| - 1 ==> s[1..][i] == s[i + 1];
    } else {
      assert TrimLeft(s) == s;
    }
  }

  lemma {:induction false} TrimLeftFrom(s: string) returns (i: nat)
    ensures i <= |s| && TrimLeft(s) == s[i..] && forall k: nat :: k < i ==> IsSpace(s[k])
  {
    if s == "" || !IsSpace(s[0]) {
      i := 0;
    } else {
      var more := TrimLeftFrom(s[1..]);
      i := 1 + more;
      assert s[1..][more..] == s[i..];
      forall k: nat | k < i
        ensures IsSpace(s[k])
      {
        if k > 0 { assert s[1..][k - 1] == s[k]; }
      }
    }
  }

  lemma SamePrefix(s: string, n: nat, j: nat)
    requires j <= n <= |s|
    ensures s[..n][..j] == s[..j] && forall k: nat :: k < n ==> s[..n][k] == s[k]
  {
  }

  lemma {:induction false} TrimRightTo(s: string) returns (j: nat)
    ensures j <= |s| && TrimRight(s) == s[..j] && forall k: nat :: j <= k < |s| ==> IsSpace(s[k])
  {
    if s == "" || !IsSpace(s[|s| - 1]) {
      j := |s|;
    } else {
      var n := |s| - 1;
      var front := s[..n];
      j := TrimRightTo(front);
      SamePrefix(s, n, j);
      forall k: nat | j <= k < |s|
        ensures IsSpace(s[k])
      {
        if k < n { assert front[k] == s[k]; }
      }
    }
  }

  /** Trimming takes white space off both ends and nothing else. */
  lemma TrimIsMiddle(s: string) returns (i: nat, j: nat)
    ensures i <= j <= |s| && Trim(s) == s[i..j]
    ensures forall k: nat :: k < i || j <= k < |s| ==> IsSpace(s[k])
  {
    i := TrimLeftFrom(s);
    var n := TrimRightTo(TrimLeft(s));
    j := i + n;
    forall k: nat | j <= k < |s|
      ensures IsSpace(s[k])
    {
      assert TrimLeft(s)[k - i] == s[k];
    }
  }

  lemma TrimTwice(s: string)
    ensures Trim(Trim(s)) == Trim(s)
  {
  }

  // ----- sorted and unique -----

  /** A value as it is listed: nothing when it is blank or a dash. */
  predicate Listed(x: string) {
    Trim(x) != "" && Trim(x) != "-"
  }

  /** The listed values of a set, trimmed. */
  ghost function Clean(values: set<string>): set<string> {
    set x | x in values && Listed(x) :: Trim(x)
  }

  ghost function Members(s: seq<string>): set<string> {
    set x | x in s
  }

  /** Trims, drops blanks, dashes and duplicates, and sorts. */
  method SortedUnique(values: seq<string>) returns (result: seq<string>)
    ensures Increasing(result) && Members(result) == Clean(Members(values))
  {
    var seen: set<string> := {};
    result := [];
    for i := 0 to |values|
      invariant Distinct(result) && seen == Members(result) == Clean(Members(values[..i]))
    {
      var value := Trim(values[i]);
      OneMore(values, i);
      if value == "" || value == "-" || value in seen {
        continue;
      }
      seen := seen + {value};
      result := result + [value];
    }
    assert values[..|values|] == values;
    SortDistinct(result);
    result := Sort(result);
  }

  lemma OneMore(values: seq<string>, i: nat)
    requires i < |values|
    ensures Clean(Members(values[..i + 1]))
            == Clean(Members(values[..i])) + (if Listed(values[i]) then {Trim(values[i])} else {})
  {
    assert values[..i + 1] == values[..i] + [values[i]];
    CleanAdd(Members(values[..i]), values[i]);
    assert Members(values[..i + 1]) == Members(values[..i]) + {values[i]};
  }

  lemma CleanAdd(s: set<string>, x: string)
    ensures Clean(s + {x}) == Clean(s) + (if Listed(x) then {Trim(x)} else {})
  {
  }

  lemma CleanUnion(a: set<string>, b: set<string>)
    ensures Clean(a + b) == Clean(a) + Clean(b)
  {
  }

  /** Cleaning what is clean changes nothing. */
  lemma CleanTwice(values: set<string>)
    ensures Clean(Clean(values)) == Clean(values)
  {
    forall x | x in values
      ensures Trim(Trim(x)) == Trim(x)
    {
      TrimTwice(x);
    }
    forall y
      ensures y in Clean(Clean(values)) <==> y in Clean(values)
    {
      if y in Clean(values) {
        assert Trim(y) == y && Listed(y);
      }
    }
  }
}
