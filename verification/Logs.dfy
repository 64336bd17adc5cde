/** Reference measures over a plain list of latencies. */
module Logs {
  import opened Words

  function Sum(xs: seq<u64>): nat {
    if xs == [] then 0 else Sum(xs[..|xs| - 1]) + xs[|xs| - 1]
  }

  function Maximum(xs: seq<u64>): u64 {
    if xs == [] then 0 else Max(Maximum(xs[..|xs| - 1]), xs[|xs| - 1])
  }

  function Minimum(xs: seq<u64>): u64 {
    if |xs| <= 1 then (if xs == [] then 0 else xs[0]) else Min(Minimum(xs[..|xs| - 1]), xs[|xs| - 1])
  }

  /** How many elements are below a bound. */
  function CountBelow(xs: seq<u64>, bound: nat): nat {
    if xs == [] then 0 else CountBelow(xs[..|xs| - 1], bound) + (if xs[|xs| - 1] < bound then 1 else 0)
  }

  ghost predicate Sorted(xs: seq<u64>) {
    forall i, j :: 0 <= i < j < |xs| ==> xs[i] <= xs[j]
  }

  lemma {:induction false} Bounds(xs: seq<u64>)
    ensures |xs| * Minimum(xs) <= Sum(xs) <= |xs| * Maximum(xs)
  {
    if |xs| <= 1 {
    } else {
      var n := |xs| - 1;
      Bounds(xs[..n]);
      Scaled(n, Minimum(xs), Minimum(xs[..n]));
      Scaled(n, Maximum(xs[..n]), Maximum(xs));
    }
  }

  lemma {:induction false} Extremes(xs: seq<u64>)
    ensures xs != [] ==> Minimum(xs) <= Maximum(xs)
    ensures forall i :: 0 <= i < |xs| ==> Minimum(xs) <= xs[i] <= Maximum(xs)
  {
    if |xs| <= 1 {
    } else {
      Extremes(xs[..|xs| - 1]);
    }
  }

  lemma Scaled(n: nat, x: int, y: int)
    requires x <= y
    ensures n * x <= n * y
    ensures (n + 1) * x == n * x + x && (n + 1) * y == n * y + y
  {
  }

  lemma {:induction false} SumAppend(xs: seq<u64>, ys: seq<u64>)
    ensures Sum(xs + ys) == Sum(xs) + Sum(ys)
    ensures Maximum(xs + ys) == Max(Maximum(xs), Maximum(ys))
  {
    if ys == [] {
      assert xs + ys == xs;
    } else {
      SumAppend(xs, ys[..|ys| - 1]);
      assert (xs + ys)[..|xs + ys| - 1] == xs + ys[..|ys| - 1];
    }
  }

  lemma {:induction false} MinimumAppend(xs: seq<u64>, ys: seq<u64>)
    ensures Minimum(xs + ys) == if xs == [] then Minimum(ys) else if ys == [] then Minimum(xs)
                                else Min(Minimum(xs), Minimum(ys))
  {
    if xs == [] {
      assert xs + ys == ys;
    } else if ys == [] {
      assert xs + ys == xs;
    } else {
      MinimumAppend(xs, ys[..|ys| - 1]);
      assert (xs + ys)[..|xs + ys| - 1] == xs + ys[..|ys| - 1];
    }
  }

  lemma {:induction false} CountBelowAppend(xs: seq<u64>, ys: seq<u64>, bound: nat)
    ensures CountBelow(xs + ys, bound) == CountBelow(xs, bound) + CountBelow(ys, bound)
  {
    if ys == [] {
      assert xs + ys == xs;
    } else {
      CountBelowAppend(xs, ys[..|ys| - 1], bound);
      assert (xs + ys)[..|xs + ys| - 1] == xs + ys[..|ys| - 1];
    }
  }

  lemma CountBelowOne(xs: seq<u64>, x: u64, bound: nat)
    ensures CountBelow(xs + [x], bound) == CountBelow(xs, bound) + (if x < bound then 1 else 0)
  {
    assert (xs + [x])[..|xs|] == xs;
  }

  lemma CountBelowRemove(xs: seq<u64>, i: nat, bound: nat)
    requires i < |xs|
    ensures CountBelow(xs, bound) == CountBelow(xs[..i] + xs[i + 1..], bound) + (if xs[i] < bound then 1 else 0)
  {
    assert xs == xs[..i] + ([xs[i]] + xs[i + 1..]);
    CountBelowAppend(xs[..i], [xs[i]] + xs[i + 1..], bound);
    CountBelowAppend([xs[i]], xs[i + 1..], bound);
    CountBelowAppend(xs[..i], xs[i + 1..], bound);
    assert CountBelow([xs[i]], bound) == if xs[i] < bound then 1 else 0 by {
      assert [xs[i]][..0] == [];
    }
  }

  /** Counting does not depend on the order. */
  lemma {:induction false} CountBelowPermuted(xs: seq<u64>, ys: seq<u64>, bound: nat)
    requires multiset(xs) == multiset(ys)
    ensures CountBelow(xs, bound) == CountBelow(ys, bound)
    decreases |xs|
  {
    if xs == [] {
      assert |multiset(ys)| == 0;
    } else {
      var i := SharedElement(xs, ys);
      CountBelowRemove(ys, i, bound);
      CountBelowPermuted(xs[..|xs| - 1], ys[..i] + ys[i + 1..], bound);
    }
  }

  /** The last element of a list stands somewhere in each of its permutations; without
      it the lists are still permutations. */
  lemma SharedElement<T>(xs: seq<T>, ys: seq<T>) returns (i: nat)
    requires xs != [] && multiset(xs) == multiset(ys)
    ensures i < |ys| && ys[i] == xs[|xs| - 1]
    ensures multiset(xs[..|xs| - 1]) == multiset(ys[..i] + ys[i + 1..])
  {
    var x := xs[|xs| - 1];
    assert x in multiset(xs);
    assert x in ys;
    i :| 0 <= i < |ys| && ys[i] == x;
    assert xs == xs[..|xs| - 1] + [x];
    assert ys == ys[..i] + ([x] + ys[i + 1..]);
    var rest := ys[..i] + ys[i + 1..];
    assert multiset(ys) == multiset(rest) + multiset{x};
    Cancel(multiset(xs[..|xs| - 1]), multiset(rest), multiset{x});
  }

  /** Leaving out an element before the last. */
  lemma LeaveOut<T>(s: seq<T>, i: nat)
    requires i + 1 < |s|
    ensures var front := s[..|s| - 1];
            s[..i] + s[i + 1..] == front[..i] + front[i + 1..] + [s[|s| - 1]]
  {
    var n := |s| - 1;
    assert s[..n][..i] == s[..i];
    assert s[i + 1..] == s[..n][i + 1..] + [s[n]];
  }

  lemma Cancel<T>(a: multiset<T>, b: multiset<T>, c: multiset<T>)
    requires a + c == b + c
    ensures a == b
  {
    assert a == (a + c) - c;
    assert b == (b + c) - c;
  }

  /** In a sorted list, the element of 0-based rank k is below a bound exactly when more
      than k elements are. */
  lemma {:induction false} RankBelow(xs: seq<u64>, k: nat, bound: nat)
    requires Sorted(xs) && k < |xs|
    ensures xs[k] < bound <==> k < CountBelow(xs, bound)
    ensures CountBelow(xs, bound) <= |xs|
  {
    var n := |xs| - 1;
    if n == 0 {
    } else {
      RankBelow(xs[..n], if k < n then k else n - 1, bound);
    }
    if xs[n] < bound {
      AllBelow(xs, bound);
    }
  }

  lemma {:induction false} AllBelow(xs: seq<u64>, bound: nat)
    requires forall i :: 0 <= i < |xs| ==> xs[i] < bound
    ensures CountBelow(xs, bound) == |xs|
  {
    if xs == [] {
    } else {
      AllBelow(xs[..|xs| - 1], bound);
    }
  }

  lemma {:induction false} CountBelowMonotone(xs: seq<u64>, a: nat, b: nat)
    requires a <= b
    ensures CountBelow(xs, a) <= CountBelow(xs, b) <= |xs|
  {
    if xs == [] {
    } else {
      CountBelowMonotone(xs[..|xs| - 1], a, b);
    }
  }
}
