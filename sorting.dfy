/** `Array.prototype.sort` with a "larger first" comparator, which the analytics
    route uses twice. The sort is stable (ECMAScript 2019 on), so its result is
    the one stable descending arrangement of the input; `SortDesc` defines it,
    the lemmas below prove it sorted, a permutation and stable, and
    `SortInPlace` computes it in place on an array. */
module Sorting {

  /** Non-increasing by `key`. */
  predicate SortedDesc<T>(s: seq<T>, key: T -> real)
  {
    forall i, j :: 0 <= i < j < |s| ==> key(s[i]) >= key(s[j])
  }

  /** `s` with `x` placed after every element whose key is at least `key(x)`. */
  function InsertDesc<T>(s: seq<T>, x: T, key: T -> real): (r: seq<T>)
    ensures |r| == |s| + 1
    decreases |s|
  {
    if s == [] || key(s[|s| - 1]) >= key(x) then s + [x]
    else InsertDesc(s[..|s| - 1], x, key) + [s[|s| - 1]]
  }

  /** The stable descending arrangement of `s`. */
  function SortDesc<T>(s: seq<T>, key: T -> real): (r: seq<T>)
    ensures |r| == |s|
    decreases |s|
  {
    if s == [] then [] else InsertDesc(SortDesc(s[..|s| - 1], key), s[|s| - 1], key)
  }

  /** The elements of `s` whose key is `k`, in their order in `s`. */
  function WithKey<T>(s: seq<T>, key: T -> real, k: real): seq<T>
    decreases |s|
  {
    if s == [] then []
    else WithKey(s[..|s| - 1], key, k) + (if key(s[|s| - 1]) == k then [s[|s| - 1]] else [])
  }

  lemma {:induction false} InsertDescPermutation<T>(s: seq<T>, x: T, key: T -> real)
    ensures multiset(InsertDesc(s, x, key)) == multiset(s) + multiset{x}
    decreases |s|
  {
    if s != [] && key(s[|s| - 1]) < key(x) {
      var front, last := s[..|s| - 1], s[|s| - 1];
      InsertDescPermutation(front, x, key);
      assert s == front + [last];
    }
  }

  lemma {:induction false} InsertDescSorted<T>(s: seq<T>, x: T, key: T -> real)
    requires SortedDesc(s, key)
    ensures SortedDesc(InsertDesc(s, x, key), key)
    decreases |s|
  {
    if s != [] && key(s[|s| - 1]) < key(x) {
      var front, last := s[..|s| - 1], s[|s| - 1];
      InsertDescSorted(front, x, key);
      InsertDescPermutation(front, x, key);
      var r := InsertDesc(front, x, key);
      forall i | 0 <= i < |r|
        ensures key(r[i]) >= key(last)
      {
        assert r[i] in multiset(front) + multiset{x};
      }
    }
  }

  lemma {:induction false} WithKeyAppend<T>(a: seq<T>, b: seq<T>, key: T -> real, k: real)
    ensures WithKey(a + b, key, k) == WithKey(a, key, k) + WithKey(b, key, k)
    decreases |b|
  {
    if b == [] {
      assert a + b == a;
    } else {
      var front := b[..|b| - 1];
      WithKeyAppend(a, front, key, k);
      assert (a + b)[..|a + b| - 1] == a + front;
      assert (a + b)[|a + b| - 1] == b[|b| - 1];
    }
  }

  lemma {:induction false} InsertDescStable<T>(s: seq<T>, x: T, key: T -> real, k: real)
    requires SortedDesc(s, key)
    ensures WithKey(InsertDesc(s, x, key), key, k) == WithKey(s, key, k) + WithKey([x], key, k)
    decreases |s|
  {
    if s == [] || key(s[|s| - 1]) >= key(x) {
      WithKeyAppend(s, [x], key, k);
    } else {
      var front, last := s[..|s| - 1], s[|s| - 1];
      assert s == front + [last];
      InsertDescStable(front, x, key, k);
      WithKeyAppend(InsertDesc(front, x, key), [last], key, k);
      WithKeyAppend(front, [last], key, k);
      assert [x][..0] == [];
      assert [last][..0] == [];
    }
  }

  /** The sort yields a non-increasing permutation of its input. */
  lemma {:induction false} SortDescSortedPermutation<T>(s: seq<T>, key: T -> real)
    ensures SortedDesc(SortDesc(s, key), key)
    ensures multiset(SortDesc(s, key)) == multiset(s)
    decreases |s|
  {
    if s != [] {
      var front, last := s[..|s| - 1], s[|s| - 1];
      SortDescSortedPermutation(front, key);
      InsertDescSorted(SortDesc(front, key), last, key);
      InsertDescPermutation(SortDesc(front, key), last, key);
      assert s == front + [last];
    }
  }

  /** Elements with equal keys keep their relative order. */
  lemma {:induction false} SortDescStable<T>(s: seq<T>, key: T -> real, k: real)
    ensures WithKey(SortDesc(s, key), key, k) == WithKey(s, key, k)
    decreases |s|
  {
    if s != [] {
      var front, last := s[..|s| - 1], s[|s| - 1];
      SortDescStable(front, key, k);
      SortDescSortedPermutation(front, key);
      InsertDescStable(SortDesc(front, key), last, key, k);
      assert [last][..0] == [];
    }
  }

  /** Where the inner loop stops, at `j`: every element from `j` on has a
      smaller key than `x` and the one before `j` (if any) does not, so `x`
      goes in at `j`. */
  lemma {:induction false} InsertDescAt<T>(s: seq<T>, x: T, key: T -> real, j: nat)
    requires j <= |s| && (j == 0 || key(s[j - 1]) >= key(x))
    requires forall k :: j <= k < |s| ==> key(s[k]) < key(x)
    ensures InsertDesc(s, x, key) == s[..j] + [x] + s[j..]
    decreases |s| - j
  {
    if j < |s| {
      var front, last := s[..|s| - 1], s[|s| - 1];
      InsertDescAt(front, x, key, j);
      assert front[..j] == s[..j] && front[j..] + [last] == s[j..];
    }
  }

  /** The inner loop of an insertion sort: `a[i]` moves left past every element
      with a smaller key. */
  method InsertInPlace<T>(a: array<T>, i: nat, key: T -> real)
    requires i < a.Length
    modifies a
    ensures a[..i + 1] == InsertDesc(old(a[..i]), old(a[i]), key)
    ensures a[i + 1..] == old(a[i + 1..])
  {
    var x := a[i];
    ghost var s := a[..i];
    var j := i;
    while j > 0 && key(a[j - 1]) < key(x)
      invariant 0 <= j <= i
      invariant forall k :: 0 <= k < j ==> a[k] == s[k]
      invariant forall k :: j < k <= i ==> a[k] == s[k - 1]
      invariant forall k :: i < k < a.Length ==> a[k] == old(a[k])
      invariant forall k :: j <= k < i ==> key(s[k]) < key(x)
    {
      a[j] := a[j - 1];
      j := j - 1;
    }
    InsertDescAt(s, x, key, j);
    a[j] := x;
    ShiftedInsert(a[..], s, x, i, j);
    assert a[i + 1..] == old(a[i + 1..]);
  }

  /** The array after the inner loop: the prefix before `j`, then `x`, then
      the rest of the prefix moved one place right. */
  lemma ShiftedInsert<T>(t: seq<T>, s: seq<T>, x: T, i: nat, j: nat)
    requires |s| == i < |t| && j <= i
    requires forall k :: 0 <= k < j ==> t[k] == s[k]
    requires t[j] == x
    requires forall k :: j < k <= i ==> t[k] == s[k - 1]
    ensures t[..i + 1] == s[..j] + [x] + s[j..]
  {
  }

  /** `array.sort((p, q) => key(q) - key(p))`, in place. */
  method SortInPlace<T>(a: array<T>, key: T -> real)
    modifies a
    ensures a[..] == SortDesc(old(a[..]), key)
  {
    ghost var original := a[..];
    var i := 0;
    while i < a.Length
      invariant 0 <= i <= a.Length
      invariant a[..i] == SortDesc(original[..i], key)
      invariant a[i..] == original[i..]
    {
      assert original[..i + 1][..i] == original[..i];
      assert SortDesc(original[..i + 1], key) == InsertDesc(SortDesc(original[..i], key), original[i], key);
      InsertInPlace(a, i, key);
      i := i + 1;
    }
    assert a[..] == a[..a.Length] && original == original[..a.Length];
  }
}
