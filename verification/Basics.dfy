/** Machine integers, the option and result types, and the sizes both planes share. */
module Basics {

  type U8 = x: int | 0 <= x < 0x100
  type U16 = x: int | 0 <= x < 0x1_0000
  type U32 = x: int | 0 <= x < 0x1_0000_0000

  datatype Option<+T> = None | Some(value: T)

  datatype Result<+T> = Ok(value: T) | Err(message: string)

  const RING_SIZE: nat := 65537
  const MAX_VIPS: nat := 64
  const MAX_REALS: nat := 512
  const MAX_WEIGHT: nat := 1000
  const REAL_NONE: U32 := 0xFFFF_FFFF

  function Min(x: nat, y: nat): (m: nat) {
    if x < y then x else y
  }

  function Sum(s: seq<nat>): (total: nat) {
    if s == [] then 0 else Sum(s[..|s| - 1]) + s[|s| - 1]
  }

  /** Raising one element by `d` raises the sum by `d`. */
  lemma {:induction false} SumUpdate(s: seq<nat>, k: nat, d: nat)
    requires k < |s|
    ensures Sum(s[k := s[k] + d]) == Sum(s) + d
  {
    var n := |s| - 1;
    var t := s[k := s[k] + d];
    if k == n {
      assert t[..n] == s[..n];
    } else {
      SumUpdate(s[..n], k, d);
      assert t[..n] == s[..n][k := s[..n][k] + d];
    }
  }

  /** How many of the first `n` elements of `s` equal `x`. */
  function CountTo(s: seq<int>, n: nat, x: int): (c: nat)
    requires n <= |s|
  {
    if n == 0 then 0 else CountTo(s, n - 1, x) + if s[n - 1] == x then 1 else 0
  }

  function Count(s: seq<int>, x: int): (c: nat) {
    CountTo(s, |s|, x)
  }

  lemma {:induction false} CountAgrees(s: seq<int>, t: seq<int>, n: nat, x: int)
    requires n <= |s| && n <= |t| && forall k :: 0 <= k < n ==> s[k] == t[k]
    ensures CountTo(s, n, x) == CountTo(t, n, x)
  {
    if n > 0 {
      CountAgrees(s, t, n - 1, x);
    }
  }

  lemma {:induction false} CountConcat(a: seq<int>, b: seq<int>, n: nat, x: int)
    requires n <= |b|
    ensures CountTo(a + b, |a| + n, x) == Count(a, x) + CountTo(b, n, x)
  {
    if n == 0 {
      CountAgrees(a + b, a, |a|, x);
    } else {
      CountConcat(a, b, n - 1, x);
    }
  }

  lemma {:induction false} CountUpdate(s: seq<int>, n: nat, k: nat, v: int, x: int)
    requires n <= |s| && k < |s|
    ensures CountTo(s[k := v], n, x) + (if k < n && s[k] == x then 1 else 0)
         == CountTo(s, n, x) + (if k < n && v == x then 1 else 0)
  {
    if n > 0 {
      CountUpdate(s, n - 1, k, v, x);
    }
  }

  lemma {:induction false} CountFinds(s: seq<int>, n: nat, x: int) returns (k: nat)
    requires n <= |s| && CountTo(s, n, x) > 0
    ensures k < n && s[k] == x
  {
    k := n - 1;
    if s[k] != x {
      k := CountFinds(s, n - 1, x);
    }
  }

  ghost function Range(n: nat): (r: set<nat>)
    ensures forall x: nat :: x in r <==> x < n
    ensures |r| == n
  {
    if n == 0 then {} else
      var below := Range(n - 1);
      assert n - 1 !in below;
      below + {n - 1}
  }

  ghost function Elements<T>(s: seq<T>): (r: set<T>)
    ensures forall i :: 0 <= i < |s| ==> s[i] in r
    ensures forall x :: x in r ==> x in s
  {
    set x | x in s
  }

  /** A map of 0..n into itself that never repeats a value hits every value. */
  lemma {:induction false} Pigeonhole(s: seq<nat>, v: nat)
    requires forall i :: 0 <= i < |s| ==> s[i] < |s|
    requires forall i, j :: 0 <= i < j < |s| ==> s[i] != s[j]
    requires v < |s|
    ensures v in s
  {
    DistinctElements(s);
    assert Elements(s) <= Range(|s|);
    SubsetOfSameSize(Elements(s), Range(|s|));
  }

  lemma {:induction false} DistinctElements<T>(s: seq<T>)
    requires forall i, j :: 0 <= i < j < |s| ==> s[i] != s[j]
    ensures |Elements(s)| == |s|
  {
    if s == [] {
      assert Elements(s) == {};
    } else {
      var n := |s| - 1;
      DistinctElements(s[..n]);
      assert s[n] !in Elements(s[..n]);
      assert Elements(s) == Elements(s[..n]) + {s[n]};
    }
  }

  lemma {:induction false} SubsetSize<T>(a: set<T>, b: set<T>)
    requires a <= b
    ensures |a| <= |b|
    ensures |b - a| == |b| - |a|
  {
    assert b == a + (b - a);
  }

  lemma SubsetOfSameSize<T>(a: set<T>, b: set<T>)
    requires a <= b && |a| == |b|
    ensures a == b
  {
    SubsetSize(a, b);
    assert b - a == {};
  }

  ghost predicate HasSize<T>(s: set<T>, n: nat) {
    |s| == n
  }

  /** No more than n elements. */
  ghost predicate AtMost<T>(s: set<T>, n: nat) {
    forall m: nat {:trigger HasSize(s, m)} :: HasSize(s, m) ==> m <= n
  }

  lemma AtMostIs<T>(s: set<T>, n: nat)
    ensures AtMost(s, n) <==> |s| <= n
  {
    assert HasSize(s, |s|);
  }

  lemma LeastFalse(safe: seq<bool>) returns (i: nat)
    ensures i <= |safe| && (forall j :: 0 <= j < i ==> safe[j]) && (i < |safe| ==> !safe[i])
  {
    i := 0;
    while i < |safe| && safe[i]
      invariant i <= |safe| && forall j :: 0 <= j < i ==> safe[j]
    {
      i := i + 1;
    }
  }
}
