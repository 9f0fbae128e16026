/** The array operations the transforms are written with: `filter`, the engine's stable
    `sort` with a numeric comparator, `slice` with its relative indices, and `reverse`. */
module Lists {

  /** `s.filter(keep)`: the elements that pass, in their original order. */
  function Filter<T>(s: seq<T>, keep: T -> bool): (r: seq<T>)
    ensures |r| <= |s|
    ensures forall i :: 0 <= i < |r| ==> r[i] in s && keep(r[i])
    ensures forall i :: 0 <= i < |s| && keep(s[i]) ==> s[i] in r
  {
    if |s| == 0 then [] else (if keep(s[0]) then [s[0]] else []) + Filter(s[1..], keep)
  }

  /** Filtering distributes over concatenation, so the order of survivors is the input order. */
  lemma {:induction false} FilterAppend<T>(a: seq<T>, b: seq<T>, keep: T -> bool)
    ensures Filter(a + b, keep) == Filter(a, keep) + Filter(b, keep)
  {
    if |a| > 0 {
      assert (a + b)[0] == a[0];
      assert (a + b)[1..] == a[1..] + b;
      FilterAppend(a[1..], b, keep);
    } else {
      assert a + b == b;
    }
  }

  /** A filter that every element passes keeps everything. */
  lemma {:induction false} FilterKeepsAll<T>(s: seq<T>, keep: T -> bool)
    requires forall i :: 0 <= i < |s| ==> keep(s[i])
    ensures Filter(s, keep) == s
  {
    if |s| > 0 {
      FilterKeepsAll(s[1..], keep);
    }
  }

  /** A filter comes out empty exactly when no element passes it. */
  lemma FilterEmpty<T>(s: seq<T>, keep: T -> bool)
    ensures |Filter(s, keep)| == 0 <==> forall i :: 0 <= i < |s| ==> !keep(s[i])
  {
    var r := Filter(s, keep);
    if |r| > 0 {
      assert r[0] in s && keep(r[0]);
    }
  }

  /** A filter keeps its input's length exactly when every element passes it. */
  lemma {:induction false} FilterDrops<T>(s: seq<T>, keep: T -> bool)
    ensures |Filter(s, keep)| == |s| <==> forall i :: 0 <= i < |s| ==> keep(s[i])
  {
    if |s| > 0 {
      FilterDrops(s[1..], keep);
      if keep(s[0]) {
        assert forall i :: 1 <= i < |s| ==> s[i] == s[1..][i - 1];
      }
    }
  }

  /** Every element either passes the filter or fails it. */
  lemma {:induction false} FilterSplit<T>(s: seq<T>, keep: T -> bool)
    ensures |Filter(s, keep)| + |Filter(s, x => !keep(x))| == |s|
  {
    if |s| > 0 {
      FilterSplit(s[1..], keep);
    }
  }

  /** `s` is in non-decreasing order of `key`. */
  ghost predicate SortedBy<T>(s: seq<T>, key: T -> int) {
    forall i, j :: 0 <= i < j < |s| ==> key(s[i]) <= key(s[j])
  }

  /** `s` is in non-increasing order of `key`. */
  ghost predicate SortedDownBy<T>(s: seq<T>, key: T -> int) {
    forall i, j :: 0 <= i < j < |s| ==> key(s[i]) >= key(s[j])
  }

  /** Sorting up by the negated key is sorting down by the key. */
  lemma SortedByNegation<T>(s: seq<T>, key: T -> int, neg: T -> int)
    requires forall x :: neg(x) == -key(x)
    requires SortedBy(s, neg)
    ensures SortedDownBy(s, key)
  {
    forall i, j | 0 <= i < j < |s|
      ensures key(s[i]) >= key(s[j])
    {
      assert neg(s[i]) <= neg(s[j]);
    }
  }

  /** Puts `x` after every leading element whose key does not exceed its own: in a sorted
      list, after the last element of a key up to its own. */
  function Insert<T>(x: T, s: seq<T>, key: T -> int): (r: seq<T>)
    ensures |r| == |s| + 1
  {
    if |s| == 0 then [x]
    else if key(s[0]) <= key(x) then [s[0]] + Insert(x, s[1..], key)
    else [x] + s
  }

  /** Inserting into a sorted list keeps it sorted and adds exactly `x`. */
  lemma {:induction false} InsertSorted<T>(x: T, s: seq<T>, key: T -> int)
    requires SortedBy(s, key)
    ensures SortedBy(Insert(x, s, key), key)
    ensures multiset(Insert(x, s, key)) == multiset(s) + multiset{x}
  {
    if |s| > 0 {
      if key(s[0]) <= key(x) {
        SortedTail(s, key);
        InsertSorted(x, s[1..], key);
        InsertBehind(x, s, key, Insert(x, s[1..], key));
      } else {
        var r := [x] + s;
        forall i, j | 0 <= i < j < |r| ensures key(r[i]) <= key(r[j]) {
          if i == 0 {
            assert key(s[0]) <= key(r[j]);
          }
        }
      }
    }
  }

  /** The step of `Insert` that passes over the first element: it stays first. */
  lemma {:induction false} InsertBehind<T>(x: T, s: seq<T>, key: T -> int, rest: seq<T>)
    requires SortedBy(s, key) && |s| > 0 && key(s[0]) <= key(x)
    requires SortedBy(rest, key) && multiset(rest) == multiset(s[1..]) + multiset{x}
    ensures SortedBy([s[0]] + rest, key)
    ensures multiset([s[0]] + rest) == multiset(s) + multiset{x}
  {
    forall j | 0 <= j < |rest| ensures key(s[0]) <= key(rest[j]) {
      assert rest[j] in multiset(rest);
      if rest[j] != x {
        assert rest[j] in multiset(s[1..]);
        var i :| 0 <= i < |s[1..]| && s[1..][i] == rest[j];
        assert s[i + 1] == rest[j];
      }
    }
    var r := [s[0]] + rest;
    forall i, j | 0 <= i < j < |r| ensures key(r[i]) <= key(r[j]) {
      if i > 0 {
        assert r[i] == rest[i - 1] && r[j] == rest[j - 1];
      }
    }
    assert s == [s[0]] + s[1..];
  }

  /** `s.sort((a, b) => key(a) - key(b))`. The engine's sort is stable, so its result is the
      insertion sort that keeps elements of equal key in their input order. */
  function SortBy<T>(s: seq<T>, key: T -> int): (r: seq<T>)
    ensures |r| == |s|
  {
    if |s| == 0 then [] else Insert(s[|s| - 1], SortBy(s[..|s| - 1], key), key)
  }

  /** The sort orders by key and is a permutation of its input. */
  lemma {:induction false} SortByFacts<T>(s: seq<T>, key: T -> int)
    ensures SortedBy(SortBy(s, key), key)
    ensures multiset(SortBy(s, key)) == multiset(s)
  {
    if |s| > 0 {
      var init := s[..|s| - 1];
      var last := s[|s| - 1];
      SortByFacts(init, key);
      InsertSorted(last, SortBy(init, key), key);
      assert s == init + [last];
    }
  }

  /** The elements of `s` whose key is `k`, in order. */
  function WithKey<T>(s: seq<T>, key: T -> int, k: int): seq<T> {
    if |s| == 0 then [] else (if key(s[0]) == k then [s[0]] else []) + WithKey(s[1..], key, k)
  }

  lemma {:induction false} WithKeyAppend<T>(a: seq<T>, b: seq<T>, key: T -> int, k: int)
    ensures WithKey(a + b, key, k) == WithKey(a, key, k) + WithKey(b, key, k)
  {
    if |a| > 0 {
      assert (a + b)[0] == a[0];
      assert (a + b)[1..] == a[1..] + b;
      WithKeyAppend(a[1..], b, key, k);
    } else {
      assert a + b == b;
    }
  }

  lemma {:induction false} WithKeyNone<T>(s: seq<T>, key: T -> int, k: int)
    requires forall i :: 0 <= i < |s| ==> key(s[i]) != k
    ensures WithKey(s, key, k) == []
  {
    if |s| > 0 {
      WithKeyNone(s[1..], key, k);
    }
  }

  lemma SortedTail<T>(s: seq<T>, key: T -> int)
    requires |s| > 0 && SortedBy(s, key)
    ensures SortedBy(s[1..], key)
  {
  }

  /** Inserting keeps every key class in order and puts `x` at the end of its own class. */
  lemma {:induction false} InsertStable<T>(x: T, s: seq<T>, key: T -> int, k: int)
    requires SortedBy(s, key)
    ensures WithKey(Insert(x, s, key), key, k) == WithKey(s, key, k) + (if key(x) == k then [x] else [])
  {
    if |s| == 0 {
      assert Insert(x, s, key) == [x];
      assert [x][1..] == [];
    } else if key(s[0]) <= key(x) {
      SortedTail(s, key);
      InsertStable(x, s[1..], key, k);
      InsertStableBehind(x, s, key, k);
    } else {
      InsertStableFront(x, s, key, k);
    }
  }

  /** `x` goes after the first element, and the tail already has the property. */
  lemma {:induction false} InsertStableBehind<T>(x: T, s: seq<T>, key: T -> int, k: int)
    requires |s| > 0 && key(s[0]) <= key(x)
    requires WithKey(Insert(x, s[1..], key), key, k) == WithKey(s[1..], key, k) + (if key(x) == k then [x] else [])
    ensures WithKey(Insert(x, s, key), key, k) == WithKey(s, key, k) + (if key(x) == k then [x] else [])
  {
    var rest := Insert(x, s[1..], key);
    var head := if key(s[0]) == k then [s[0]] else [];
    var tail := if key(x) == k then [x] else [];
    var mid := WithKey(s[1..], key, k);
    calc {
      WithKey(Insert(x, s, key), key, k);
      { assert Insert(x, s, key) == [s[0]] + rest; }
      WithKey([s[0]] + rest, key, k);
      { assert ([s[0]] + rest)[0] == s[0]; assert ([s[0]] + rest)[1..] == rest; }
      head + WithKey(rest, key, k);
      head + (mid + tail);
      (head + mid) + tail;
      WithKey(s, key, k) + tail;
    }
  }

  /** `x` goes in front: every element has a larger key, so none is in `x`'s class. */
  lemma {:induction false} InsertStableFront<T>(x: T, s: seq<T>, key: T -> int, k: int)
    requires SortedBy(s, key) && |s| > 0 && key(x) < key(s[0])
    ensures WithKey(Insert(x, s, key), key, k) == WithKey(s, key, k) + (if key(x) == k then [x] else [])
  {
    assert Insert(x, s, key) == [x] + s;
    assert ([x] + s)[1..] == s;
    if key(x) == k {
      WithKeyNone(s, key, k);
    }
  }

  /** Stability: within each key class the sorted list keeps the input order. */
  lemma {:induction false} SortStable<T>(s: seq<T>, key: T -> int, k: int)
    ensures WithKey(SortBy(s, key), key, k) == WithKey(s, key, k)
  {
    if |s| > 0 {
      var init := s[..|s| - 1];
      var last := s[|s| - 1];
      var sorted := SortBy(init, key);
      var tail := if key(last) == k then [last] else [];
      SortByFacts(init, key);
      calc {
        WithKey(SortBy(s, key), key, k);
        { assert SortBy(s, key) == Insert(last, sorted, key); }
        WithKey(Insert(last, sorted, key), key, k);
        { InsertStable(last, sorted, key, k); }
        WithKey(sorted, key, k) + tail;
        { SortStable(init, key, k); }
        WithKey(init, key, k) + tail;
        { WithKeyAppend(init, [last], key, k);
          assert [last][1..] == [];
          assert WithKey([last], key, k) == tail + WithKey([], key, k); }
        WithKey(init + [last], key, k);
        { assert s == init + [last]; }
        WithKey(s, key, k);
      }
    }
  }

  /** The sum of `f` over the elements of `s`. */
  function SumOf<T>(s: seq<T>, f: T -> int): int {
    if |s| == 0 then 0 else f(s[0]) + SumOf(s[1..], f)
  }

  lemma {:induction false} SumOfAppend<T>(a: seq<T>, b: seq<T>, f: T -> int)
    ensures SumOf(a + b, f) == SumOf(a, f) + SumOf(b, f)
  {
    if |a| > 0 {
      assert (a + b)[0] == a[0];
      assert (a + b)[1..] == a[1..] + b;
      SumOfAppend(a[1..], b, f);
    } else {
      assert a + b == b;
    }
  }

  lemma {:induction false} SumOfInsert<T>(x: T, s: seq<T>, key: T -> int, f: T -> int)
    ensures SumOf(Insert(x, s, key), f) == f(x) + SumOf(s, f)
  {
    if |s| > 0 && key(s[0]) <= key(x) {
      SumOfInsert(x, s[1..], key, f);
      assert Insert(x, s, key)[1..] == Insert(x, s[1..], key);
    } else {
      assert Insert(x, s, key)[1..] == s;
    }
  }

  /** Sorting neither adds nor loses anything from a sum. */
  lemma {:induction false} SumOfSortBy<T>(s: seq<T>, key: T -> int, f: T -> int)
    ensures SumOf(SortBy(s, key), f) == SumOf(s, f)
  {
    if |s| > 0 {
      var init := s[..|s| - 1];
      var last := s[|s| - 1];
      var sorted := SortBy(init, key);
      assert SortBy(s, key) == Insert(last, sorted, key);
      SumOfSortBy(init, key, f);
      SumOfInsert(last, sorted, key, f);
      assert s == init + [last];
      SumOfAppend(init, [last], f);
      assert SumOf([last], f) == f(last);
    }
  }

  /** An element at two positions is counted at least twice. */
  lemma TwiceInMultiset<T>(s: seq<T>, i: int, j: int)
    requires 0 <= i < j < |s| && s[i] == s[j]
    ensures multiset(s)[s[i]] >= 2
  {
    assert s == s[..j] + s[j..];
    assert s[i] in multiset(s[..j]);
    assert s[j] in multiset(s[j..]);
  }

  /** In a sequence whose keys are pairwise distinct, no element repeats. */
  lemma {:induction false} OnceInMultiset<T, K>(s: seq<T>, key: T -> K, x: T)
    requires forall i, j :: 0 <= i < j < |s| ==> key(s[i]) != key(s[j])
    ensures multiset(s)[x] <= 1
  {
    if |s| > 0 {
      assert s == [s[0]] + s[1..];
      OnceInMultiset(s[1..], key, x);
    }
  }

  /** Reordering keeps keys pairwise distinct. */
  lemma DistinctKeysPermutation<T, K>(a: seq<T>, b: seq<T>, key: T -> K)
    requires multiset(a) == multiset(b)
    requires forall i, j :: 0 <= i < j < |b| ==> key(b[i]) != key(b[j])
    ensures forall i, j :: 0 <= i < j < |a| ==> key(a[i]) != key(a[j])
  {
    forall i, j | 0 <= i < j < |a|
      ensures key(a[i]) != key(a[j])
    {
      if key(a[i]) == key(a[j]) {
        assert a[i] in multiset(b) && a[j] in multiset(b);
        var p :| 0 <= p < |b| && b[p] == a[i];
        var q :| 0 <= q < |b| && b[q] == a[j];
        assert p == q;
        TwiceInMultiset(a, i, j);
        OnceInMultiset(b, key, a[i]);
      }
    }
  }

  /** A key class under the negated key is the class of the opposite key. */
  lemma {:induction false} WithKeyNegated<T>(s: seq<T>, key: T -> int, k: int)
    ensures WithKey(s, Negated(key), -k) == WithKey(s, key, k)
  {
    if |s| > 0 {
      WithKeyNegated(s[1..], key, k);
      assert Negated(key)(s[0]) == -key(s[0]);
    }
  }

  /** The key that sorts the other way round. */
  function Negated<T>(key: T -> int): T -> int {
    x => -key(x)
  }

  /** `s.sort((a, b) => key(b) - key(a))`: the stable sort by `key`, highest first. */
  function SortDownBy<T>(s: seq<T>, key: T -> int): (r: seq<T>)
    ensures SortedDownBy(r, key)
    ensures multiset(r) == multiset(s)
    ensures forall k :: WithKey(r, key, k) == WithKey(s, key, k)
  {
    SortByFacts(s, Negated(key));
    SortDownFacts(s, key);
    SortBy(s, Negated(key))
  }

  /** Sorting up by the negated key sorts down, permutes and keeps each key class in order. */
  lemma SortDownFacts<T>(s: seq<T>, key: T -> int)
    ensures SortedDownBy(SortBy(s, Negated(key)), key)
    ensures forall k :: WithKey(SortBy(s, Negated(key)), key, k) == WithKey(s, key, k)
  {
    var neg := Negated(key);
    var r := SortBy(s, neg);
    SortByFacts(s, neg);
    assert forall x :: neg(x) == -key(x);
    SortedByNegation(r, key, neg);
    forall k ensures WithKey(r, key, k) == WithKey(s, key, k) {
      SortDownStable(s, key, k);
    }
  }

  /** One key class of the highest-first sort keeps its input order. */
  lemma SortDownStable<T>(s: seq<T>, key: T -> int, k: int)
    ensures WithKey(SortBy(s, Negated(key)), key, k) == WithKey(s, key, k)
  {
    WithKeyNegated(SortBy(s, Negated(key)), key, k);
    WithKeyNegated(s, key, k);
    SortStableVia(s, key, Negated(key), k);
  }

  /** Stability under a second key whose class `-k` is the class `k` of `key`, both before and
      after sorting. */
  lemma SortStableVia<T>(s: seq<T>, key: T -> int, neg: T -> int, k: int)
    requires WithKey(SortBy(s, neg), key, k) == WithKey(SortBy(s, neg), neg, -k)
    requires WithKey(s, neg, -k) == WithKey(s, key, k)
    ensures WithKey(SortBy(s, neg), key, k) == WithKey(s, key, k)
  {
    SortStable(s, neg, -k);
  }

  /** Sorting highest first neither adds nor loses anything from a sum. */
  lemma SumOfSortDownBy<T>(s: seq<T>, key: T -> int, f: T -> int)
    ensures SumOf(SortDownBy(s, key), f) == SumOf(s, f)
  {
    SumOfSortBy(s, Negated(key), f);
  }

  /** A relative array index as `slice` reads it: negative counts from the end; the result is
      clamped to `0..len`. */
  function RelativeIndex(k: int, len: nat): (r: nat)
    ensures r <= len
    ensures k >= 0 ==> r == (if k < len then k else len)
    ensures k < 0 ==> r == (if len + k > 0 then len + k else 0)
  {
    if k < 0 then (if len + k > 0 then len + k else 0) else if k < len then k else len
  }

  /** `s.slice(0, end)`: the first `end` elements, or all but the last `-end` for a negative
      `end`, never more than the list holds. */
  function SliceTo<T>(s: seq<T>, end: int): (r: seq<T>)
    ensures |r| <= |s| && r == s[..|r|]
    ensures end >= 0 ==> |r| == (if end < |s| then end else |s|)
    ensures end < 0 ==> |r| == (if |s| + end > 0 then |s| + end else 0)
  {
    s[..RelativeIndex(end, |s|)]
  }

  /** `s.slice(start)`: everything from `start` on, or the last `-start` elements for a negative
      `start`, never more than the list holds. */
  function SliceFrom<T>(s: seq<T>, start: int): (r: seq<T>)
    ensures |r| <= |s| && r == s[|s| - |r|..]
    ensures start >= 0 ==> |r| == (if start < |s| then |s| - start else 0)
    ensures start < 0 ==> |r| == (if -start < |s| then -start else |s|)
  {
    s[RelativeIndex(start, |s|)..]
  }

  /** `slice(0, k)` and `slice(k)` cut the list at the same place, for every `k`. */
  lemma SliceSplit<T>(s: seq<T>, k: int)
    ensures SliceTo(s, k) + SliceFrom(s, k) == s
  {
    var i := RelativeIndex(k, |s|);
    assert s[..i] + s[i..] == s;
  }

  /** A negative start of `-k` takes the last `k` elements. */
  lemma SliceFromEnd<T>(s: seq<T>, k: int)
    requires 0 < k <= |s|
    ensures SliceFrom(s, -k) == s[|s| - k..]
  {
  }

  /** `s.reverse()` on a copy. */
  function Reverse<T>(s: seq<T>): (r: seq<T>)
    ensures |r| == |s|
    ensures forall i :: 0 <= i < |s| ==> r[i] == s[|s| - 1 - i]
  {
    if |s| == 0 then [] else [s[|s| - 1]] + Reverse(s[..|s| - 1])
  }
}
