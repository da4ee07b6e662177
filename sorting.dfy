/**
  Stable sorting by an integer key, the way `Array.prototype.sort` with a
  numeric comparator behaves: ECMAScript 2019 and later require the sort to be
  stable, so elements with equal keys keep their relative order.

  A comparator `(a, b) => key(a) - key(b)` orders by `key`; the descending
  comparators of the storefront are keys negated.

  Stability is stated without positions: for every key value `k`, the
  elements whose key is `k` (the "class" of `k`) appear in the output in the
  same order as in the input. Together with sortedness this determines the
  output completely (`StableSortUnique`).
 */
module Sorting {

  /** Keys never decrease along `s`. */
  ghost predicate SortedBy<T>(s: seq<T>, key: T -> int)
  {
    forall i, j :: 0 <= i < j < |s| ==> key(s[i]) <= key(s[j])
  }

  /** The elements of `s` whose key is `k`, in the order of `s`. */
  function Class<T>(s: seq<T>, key: T -> int, k: int): seq<T>
  {
    if s == [] then [] else (if key(s[0]) == k then [s[0]] else []) + Class(s[1..], key, k)
  }

  /** Every key class of `r` equals the same class of `s`. */
  ghost predicate SameClasses<T>(r: seq<T>, s: seq<T>, key: T -> int)
  {
    forall k :: Class(r, key, k) == Class(s, key, k)
  }

  /** `r` is what a stable sort of `s` by `key` returns. */
  ghost predicate StableSortOf<T>(r: seq<T>, s: seq<T>, key: T -> int)
  {
    SortedBy(r, key) && SameClasses(r, s, key)
  }

  lemma {:induction false} ClassAppend<T>(a: seq<T>, b: seq<T>, key: T -> int, k: int)
    ensures Class(a + b, key, k) == Class(a, key, k) + Class(b, key, k)
    decreases |a|
  {
    if a == [] {
      assert a + b == b;
    } else {
      var head := if key(a[0]) == k then [a[0]] else [];
      assert (a + b)[0] == a[0] && (a + b)[1..] == a[1..] + b;
      ClassAppend(a[1..], b, key, k);
      calc {
        Class(a + b, key, k);
        head + Class(a[1..] + b, key, k);
        head + (Class(a[1..], key, k) + Class(b, key, k));
        (head + Class(a[1..], key, k)) + Class(b, key, k);
      }
    }
  }

  lemma {:induction false} ClassMembers<T>(s: seq<T>, key: T -> int, k: int, x: T)
    ensures x in Class(s, key, k) <==> x in s && key(x) == k
    decreases |s|
  {
    if s != [] {
      ClassMembers(s[1..], key, k, x);
      assert s == [s[0]] + s[1..];
    }
  }

  /** Swapping two neighbours with different keys changes no key class. */
  lemma SwapNeighbours<T>(s: seq<T>, i: nat, key: T -> int)
    requires i + 1 < |s| && key(s[i]) != key(s[i + 1])
    ensures SameClasses(s[i := s[i + 1]][i + 1 := s[i]], s, key)
  {
    var t := s[i := s[i + 1]][i + 1 := s[i]];
    assert s == s[..i] + [s[i], s[i + 1]] + s[i + 2..];
    assert t == s[..i] + [s[i + 1], s[i]] + s[i + 2..];
    forall k ensures Class(t, key, k) == Class(s, key, k) {
      ClassAppend(s[..i] + [s[i], s[i + 1]], s[i + 2..], key, k);
      ClassAppend(s[..i], [s[i], s[i + 1]], key, k);
      ClassAppend(s[..i] + [s[i + 1], s[i]], s[i + 2..], key, k);
      ClassAppend(s[..i], [s[i + 1], s[i]], key, k);
      assert [s[i], s[i + 1]][1..] == [s[i + 1]];
      assert [s[i + 1], s[i]][1..] == [s[i]];
    }
  }

  /** Inserts `x` into sorted `s` before the first element whose key is not smaller. */
  function Insert<T>(x: T, s: seq<T>, key: T -> int): seq<T>
  {
    if s == [] || key(x) <= key(s[0]) then [x] + s
    else
      assert s == [s[0]] + s[1..];
      [s[0]] + Insert(x, s[1..], key)
  }

  /** Where `Insert` puts `x`: after the leading elements with smaller keys. */
  lemma {:induction false} InsertAt<T>(x: T, s: seq<T>, key: T -> int, m: nat)
    requires m <= |s|
    requires forall i :: 0 <= i < m ==> key(s[i]) < key(x)
    requires m == |s| || key(x) <= key(s[m])
    ensures Insert(x, s, key) == s[..m] + [x] + s[m..]
    decreases m
  {
    if m == 0 {
      assert s[..0] + [x] + s[0..] == [x] + s;
    } else {
      var t := s[1..];
      assert forall i :: 0 <= i < m - 1 ==> key(t[i]) < key(x) by {
        forall i | 0 <= i < m - 1 ensures key(t[i]) < key(x) {
          assert t[i] == s[i + 1];
        }
      }
      InsertAt(x, t, key, m - 1);
      SplitAfterHead(s, m, x);
    }
  }

  lemma SplitAfterHead<T>(s: seq<T>, m: nat, x: T)
    requires 0 < m <= |s|
    ensures [s[0]] + (s[1..][..m - 1] + [x] + s[1..][m - 1..]) == s[..m] + [x] + s[m..]
  {
    assert s[..m] == [s[0]] + s[1..][..m - 1];
    assert s[m..] == s[1..][m - 1..];
  }

  /** Insertion sort: the reference stable sort. */
  function InsertionSort<T>(s: seq<T>, key: T -> int): seq<T>
  {
    if s == [] then []
    else Insert(s[0], InsertionSort(s[1..], key), key)
  }

  /** `Insert` adds exactly `x`. */
  lemma {:induction false} InsertPermutes<T>(x: T, s: seq<T>, key: T -> int)
    ensures multiset(Insert(x, s, key)) == multiset(s) + multiset{x}
    decreases |s|
  {
    if s != [] && key(x) > key(s[0]) {
      InsertPermutes(x, s[1..], key);
      assert s == [s[0]] + s[1..];
    }
  }

  lemma {:induction false} InsertSorted<T>(x: T, s: seq<T>, key: T -> int)
    requires SortedBy(s, key)
    ensures SortedBy(Insert(x, s, key), key)
    decreases |s|
  {
    if s != [] && key(x) > key(s[0]) {
      InsertSorted(x, s[1..], key);
      var tail := Insert(x, s[1..], key);
      InsertPermutes(x, s[1..], key);
      forall y | y in tail ensures key(s[0]) <= key(y) {
        assert y in multiset(tail);
      }
      assert Insert(x, s, key) == [s[0]] + tail;
    }
  }

  lemma {:induction false} InsertClasses<T>(x: T, s: seq<T>, key: T -> int, k: int)
    ensures Class(Insert(x, s, key), key, k) == Class([x] + s, key, k)
    decreases |s|
  {
    if s != [] && key(x) > key(s[0]) {
      InsertClasses(x, s[1..], key, k);
      var tail := Insert(x, s[1..], key);
      assert Insert(x, s, key) == [s[0]] + tail;
      assert ([s[0]] + tail)[1..] == tail;
      assert ([x] + s)[1..] == s;
      assert ([x] + s[1..])[1..] == s[1..];
    }
  }

  /** The reference sort is a stable sort. */
  lemma {:induction false} InsertionSortIsStable<T>(s: seq<T>, key: T -> int)
    ensures StableSortOf(InsertionSort(s, key), s, key)
    decreases |s|
  {
    if s != [] {
      InsertionSortIsStable(s[1..], key);
      var rest := InsertionSort(s[1..], key);
      InsertSorted(s[0], rest, key);
      forall k ensures Class(InsertionSort(s, key), key, k) == Class(s, key, k) {
        InsertClasses(s[0], rest, key, k);
        assert ([s[0]] + rest)[1..] == rest;
      }
    }
  }

  lemma ClassOfTail<T>(s: seq<T>, key: T -> int, k: int)
    requires s != []
    ensures Class(s[1..], key, k) == if key(s[0]) == k then Class(s, key, k)[1..] else Class(s, key, k)
  {
  }

  /** A stable sort has only one possible result: sortedness and the key classes fix it. */
  lemma {:induction false} StableSortUnique<T>(a: seq<T>, b: seq<T>, key: T -> int)
    requires SortedBy(a, key) && SortedBy(b, key) && SameClasses(a, b, key)
    ensures a == b
    decreases |a|
  {
    StableSortPermutes(a, b, key);
    assert |a| == |multiset(a)| == |multiset(b)| == |b|;
    if a != [] {
      var x, y := a[0], b[0];
      ClassMembers(b, key, key(y), y);
      ClassMembers(a, key, key(y), y);
      ClassMembers(a, key, key(x), x);
      ClassMembers(b, key, key(x), x);
      var i :| 0 <= i < |a| && a[i] == y;
      var j :| 0 <= j < |b| && b[j] == x;
      assert key(x) <= key(y) by { if i > 0 { assert key(a[0]) <= key(a[i]); } }
      assert key(y) <= key(x) by { if j > 0 { assert key(b[0]) <= key(b[j]); } }
      assert Class(a, key, key(x))[0] == x;
      assert Class(b, key, key(x))[0] == y;
      assert x == y;
      forall k ensures Class(a[1..], key, k) == Class(b[1..], key, k) {
        ClassOfTail(a, key, k);
        ClassOfTail(b, key, k);
      }
      StableSortUnique(a[1..], b[1..], key);
      assert a == [x] + a[1..] && b == [y] + b[1..];
    }
  }

  lemma {:induction false} MultisetByClass<T>(s: seq<T>, key: T -> int, x: T)
    ensures multiset(s)[x] == multiset(Class(s, key, key(x)))[x]
    decreases |s|
  {
    if s != [] {
      MultisetByClass(s[1..], key, x);
      assert s == [s[0]] + s[1..];
    }
  }

  /** A stable sort is a permutation of its input. */
  lemma StableSortPermutes<T>(r: seq<T>, s: seq<T>, key: T -> int)
    requires SameClasses(r, s, key)
    ensures multiset(r) == multiset(s)
  {
    forall x ensures multiset(r)[x] == multiset(s)[x] {
      MultisetByClass(r, key, x);
      MultisetByClass(s, key, x);
    }
  }

  /**
    The in-place sort behind `result.sort(comparator)`: insertion sort that
    moves an element left past strictly larger keys only, so equal keys never
    swap.
   */
  method SortInPlace<T>(a: array<T>, key: T -> int)
    modifies a
    ensures StableSortOf(a[..], old(a[..]), key)
  {
    var i := 0;
    while i < a.Length
      invariant 0 <= i <= a.Length
      invariant SortedBy(a[..i], key)
      invariant SameClasses(a[..], old(a[..]), key)
    {
      SinkLast(a, i, key);
      i := i + 1;
    }
  }

  /** Moves `a[i]` left into the sorted prefix `a[..i]`, past strictly larger keys only. */
  method SinkLast<T>(a: array<T>, i: int, key: T -> int)
    requires 0 <= i < a.Length && SortedBy(a[..i], key)
    modifies a
    ensures SortedBy(a[..i + 1], key)
    ensures SameClasses(a[..], old(a[..]), key)
  {
    var j := i;
    while 0 < j && key(a[j]) < key(a[j - 1])
      invariant 0 <= j <= i
      invariant forall m, n :: 0 <= m < n <= i && n != j ==> key(a[m]) <= key(a[n])
      invariant SameClasses(a[..], old(a[..]), key)
    {
      SwapNeighbours(a[..], j - 1, key);
      a[j - 1], a[j] := a[j], a[j - 1];
      j := j - 1;
    }
  }
}
