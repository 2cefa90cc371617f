/** The two routines of Go's standard package slices that the agent calls, both in place. */
module Slices {

  ghost predicate SortedBy<T(!new)>(s: seq<T>, weight: T -> int) {
    forall i, j :: 0 <= i < j < |s| ==> weight(s[i]) <= weight(s[j])
  }

  lemma SortedSuffix<T(!new)>(s: seq<T>, weight: T -> int, k: nat)
    requires k <= |s| && SortedBy(s, weight)
    ensures SortedBy(s[k..], weight)
  {
  }

  method SwapDown<T>(a: array<T>, j: nat)
    requires 0 < j < a.Length
    modifies a
    ensures a[j - 1] == old(a[j]) && a[j] == old(a[j - 1])
    ensures forall i :: 0 <= i < a.Length && i != j && i != j - 1 ==> a[i] == old(a[i])
    ensures multiset(a[..]) == old(multiset(a[..]))
  {
    a[j - 1], a[j] := a[j], a[j - 1];
  }

  /** Moves the element at n down past the heavier ones before it. */
  method Sink<T(!new)>(a: array<T>, n: nat, weight: T -> int)
    requires n < a.Length && SortedBy(a[..n], weight)
    modifies a
    ensures SortedBy(a[..n + 1], weight)
    ensures multiset(a[..]) == old(multiset(a[..]))
  {
    var j := n;
    while 0 < j && weight(a[j]) < weight(a[j - 1])
      invariant 0 <= j <= n
      invariant multiset(a[..]) == old(multiset(a[..]))
      invariant forall p, q :: 0 <= p < q <= n && q != j ==> weight(a[p]) <= weight(a[q])
    {
      SwapDown(a, j);
      j := j - 1;
    }
  }

  /** SortFunc with a comparison of weights. The library does not promise a
      stable sort: callers may rely on the contract, never on the order of ties. */
  method SortFunc<T(!new)>(a: array<T>, weight: T -> int)
    modifies a
    ensures SortedBy(a[..], weight)
    ensures multiset(a[..]) == old(multiset(a[..]))
  {
    var n := 0;
    while n < a.Length
      invariant 0 <= n <= a.Length
      invariant SortedBy(a[..n], weight)
      invariant multiset(a[..]) == old(multiset(a[..]))
    {
      Sink(a, n, weight);
      n := n + 1;
    }
    assert a[..n] == a[..];
  }

  /** s without any occurrence of x, in the original order. */
  function Without<T(==)>(s: seq<T>, x: T): (r: seq<T>)
    ensures x !in r && |r| <= |s|
  {
    if s == [] then []
    else if s[|s| - 1] == x then Without(s[..|s| - 1], x)
    else Without(s[..|s| - 1], x) + [s[|s| - 1]]
  }

  lemma {:induction false} WithoutKeeps<T>(s: seq<T>, x: T, y: T)
    requires y != x
    ensures multiset(Without(s, x))[y] == multiset(s)[y]
    ensures y in Without(s, x) <==> y in s
  {
    if s == [] {
    } else {
      WithoutKeeps(s[..|s| - 1], x, y);
      assert s == s[..|s| - 1] + [s[|s| - 1]];
    }
  }

  /** Only the occurrences of x go; what is before and after the first of them stays where it was. */
  lemma {:induction false} WithoutFirst<T>(before: seq<T>, x: T, after: seq<T>)
    requires x !in before
    ensures Without(before + [x] + after, x) == before + Without(after, x)
  {
    if after == [] {
      WithoutAbsent(before, x);
      WithoutSnoc(before, x, x);
      assert before + [x] + after == before + [x];
    } else {
      var init, last := after[..|after| - 1], after[|after| - 1];
      WithoutFirst(before, x, init);
      assert after == init + [last];
      WithoutSnoc(init, last, x);
      WithoutSnoc(before + [x] + init, last, x);
      assert before + [x] + after == before + [x] + init + [last];
    }
  }

  lemma {:induction false} WithoutAbsent<T>(s: seq<T>, x: T)
    ensures |Without(s, x)| == |s| <==> x !in s
    ensures x !in s ==> Without(s, x) == s
  {
    if s == [] {
    } else {
      WithoutAbsent(s[..|s| - 1], x);
      assert s == s[..|s| - 1] + [s[|s| - 1]];
    }
  }

  /** DeleteFunc with a test for x: shifts the kept elements of the first n down
      over the deleted ones, blanks what is left behind and returns the new length. */
  method DeleteFunc<T(==)>(a: array<T>, n: nat, x: T, zero: T) returns (k: nat)
    requires n <= a.Length
    modifies a
    ensures k <= n
    ensures a[..k] == Without(old(a[..n]), x)
    ensures k < n ==> forall j :: k <= j < n ==> a[j] == zero
    ensures a[n..] == old(a[n..])
  {
    k := 0;
    while k < n && a[k] != x
      invariant 0 <= k <= n
      invariant x !in a[..k]
    {
      k := k + 1;
    }
    WithoutAbsent(a[..k], x);
    if k == n {
      return;
    }
    k := ShiftKept(a, k, n, x);
    Clear(a, k, n, zero);
  }

  lemma WithoutSnoc<T>(s: seq<T>, e: T, x: T)
    ensures Without(s + [e], x) == if e == x then Without(s, x) else Without(s, x) + [e]
  {
    assert (s + [e])[..|s|] == s;
  }

  /** Everything before i stays; from i on, where the first x is, the kept elements move down. */
  method ShiftKept<T(==)>(a: array<T>, i: nat, n: nat, x: T) returns (k: nat)
    requires i < n <= a.Length && a[i] == x && Without(a[..i], x) == a[..i]
    modifies a
    ensures k <= n && a[..k] == Without(old(a[..n]), x) && a[n..] == old(a[n..])
  {
    ghost var s := a[..];
    k := i;
    var j := i + 1;
    assert s[..j] == s[..i] + [x];
    WithoutSnoc(s[..i], x, x);
    while j < n
      invariant k < j <= n
      invariant a[..k] == Without(s[..j], x)
      invariant forall p :: j <= p < a.Length ==> a[p] == s[p]
    {
      var v := a[j];
      WithoutNext(s, j, x);
      if v != x {
        Append(a, k, v);
        k := k + 1;
      }
      j := j + 1;
    }
  }

  lemma WithoutNext<T>(s: seq<T>, j: nat, x: T)
    requires j < |s|
    ensures Without(s[..j + 1], x) == if s[j] == x then Without(s[..j], x) else Without(s[..j], x) + [s[j]]
  {
    assert s[..j + 1] == s[..j] + [s[j]];
    WithoutSnoc(s[..j], s[j], x);
  }

  method Append<T>(a: array<T>, k: nat, v: T)
    requires k < a.Length
    modifies a
    ensures a[..k + 1] == old(a[..k]) + [v] && forall p :: k < p < a.Length ==> a[p] == old(a[p])
  {
    a[k] := v;
  }

  method Clear<T>(a: array<T>, k: nat, n: nat, zero: T)
    requires k <= n <= a.Length
    modifies a
    ensures forall j :: k <= j < n ==> a[j] == zero
    ensures a[..k] == old(a[..k]) && a[n..] == old(a[n..])
  {
    var j := k;
    while j < n
      invariant k <= j <= n
      invariant forall i :: k <= i < j ==> a[i] == zero
      invariant forall i :: (0 <= i < k || n <= i < a.Length) ==> a[i] == old(a[i])
    {
      a[j] := zero;
      j := j + 1;
    }
  }
}
