/** A stable sort on an integer key, the functional counterpart of
    `Array.prototype.sort` with a comparator `(a, b) => key(a) - key(b)`.
    ECMAScript requires that sort to be stable, so elements with equal keys
    keep their relative order; `StableSortIsUnique` shows that "ascending by
    key" together with that stability determines the result completely. */
module Sorting {

  /** Keys never decrease from left to right. */
  ghost predicate SortedBy<T>(s: seq<T>, key: T -> int) {
    forall i, j :: 0 <= i < j < |s| ==> key(s[i]) <= key(s[j])
  }

  /** The elements of `s` whose key is `k`, in their order in `s`. */
  function WithKey<T>(s: seq<T>, key: T -> int, k: int): (r: seq<T>)
    ensures |r| <= |s|
    ensures forall x :: x in r ==> x in s && key(x) == k
  {
    if |s| == 0 then []
    else (if key(s[0]) == k then [s[0]] else []) + WithKey(s[1..], key, k)
  }

  /** `s` and `t` list the elements of every key in the same order. */
  ghost predicate SameKeyOrder<T>(s: seq<T>, t: seq<T>, key: T -> int) {
    forall k :: WithKey(s, key, k) == WithKey(t, key, k)
  }

  /** Inserts `x` into a sorted `t` in front of every element whose key is
      not smaller, so that `x` precedes the elements with an equal key. */
  function Insert<T>(x: T, t: seq<T>, key: T -> int): (r: seq<T>)
    requires SortedBy(t, key)
    ensures |r| == |t| + 1
    ensures multiset(r) == multiset(t) + multiset{x}
    ensures SortedBy(r, key)
  {
    if |t| == 0 || key(x) <= key(t[0]) then [x] + t
    else
      var r' := Insert(x, t[1..], key);
      assert t == [t[0]] + t[1..];
      assert forall i :: 0 <= i < |r'| ==> key(t[0]) <= key(r'[i]) by {
        forall i | 0 <= i < |r'| ensures key(t[0]) <= key(r'[i]) {
          assert r'[i] in multiset(r');
        }
      }
      [t[0]] + r'
  }

  /** Insertion sort, ascending by `key`; earlier elements are inserted last
      and therefore end up in front of later ones with the same key. */
  function SortBy<T>(s: seq<T>, key: T -> int): (r: seq<T>)
    ensures |r| == |s|
    ensures multiset(r) == multiset(s)
    ensures SortedBy(r, key)
  {
    if |s| == 0 then []
    else
      assert s == [s[0]] + s[1..];
      Insert(s[0], SortBy(s[1..], key), key)
  }

  /** The sum of `f` over a sequence. */
  function SumBy<T>(s: seq<T>, f: T -> int): int {
    if |s| == 0 then 0 else f(s[0]) + SumBy(s[1..], f)
  }

  lemma {:induction false} SumByAppend<T>(a: seq<T>, b: seq<T>, f: T -> int)
    ensures SumBy(a + b, f) == SumBy(a, f) + SumBy(b, f)
  {
    if |a| == 0 {
      assert a + b == b;
    } else {
      assert (a + b)[1..] == a[1..] + b;
      SumByAppend(a[1..], b, f);
    }
  }

  /** The elements of a one-element sequence with key `k`. */
  function Own<T>(x: T, key: T -> int, k: int): seq<T> {
    if key(x) == k then [x] else []
  }

  lemma WithKeyCons<T>(x: T, s: seq<T>, key: T -> int, k: int)
    ensures WithKey([x] + s, key, k) == Own(x, key, k) + WithKey(s, key, k)
  {
    assert ([x] + s)[1..] == s;
  }

  lemma OwnCommutes<T>(x: T, y: T, key: T -> int, k: int)
    requires key(x) != key(y)
    ensures Own(x, key, k) + Own(y, key, k) == Own(y, key, k) + Own(x, key, k)
  {
  }

  lemma {:induction false} InsertKeepsKeyOrder<T>(x: T, t: seq<T>, key: T -> int, k: int)
    requires SortedBy(t, key)
    ensures WithKey(Insert(x, t, key), key, k) == WithKey([x] + t, key, k)
  {
    if |t| > 0 && key(x) > key(t[0]) {
      var t0, rest := t[0], t[1..];
      var ins := Insert(x, rest, key);
      assert Insert(x, t, key) == [t0] + ins;
      assert t == [t0] + rest;
      InsertKeepsKeyOrder(x, rest, key, k);
      WithKeyCons(t0, ins, key, k);
      WithKeyCons(x, rest, key, k);
      WithKeyCons(x, t, key, k);
      WithKeyCons(t0, rest, key, k);
      OwnCommutes(x, t0, key, k);
    }
  }

  /** Stability: sorting never reorders two elements with the same key. */
  lemma {:induction false} SortIsStable<T>(s: seq<T>, key: T -> int)
    ensures SameKeyOrder(SortBy(s, key), s, key)
  {
    if |s| > 0 {
      var rest := SortBy(s[1..], key);
      SortIsStable(s[1..], key);
      forall k
        ensures WithKey(SortBy(s, key), key, k) == WithKey(s, key, k)
      {
        InsertKeepsKeyOrder(s[0], rest, key, k);
        WithKeyCons(s[0], rest, key, k);
        WithKeyCons(s[0], s[1..], key, k);
        assert s == [s[0]] + s[1..];
      }
    }
  }

  lemma {:induction false} WithKeyHead<T>(s: seq<T>, key: T -> int)
    requires |s| > 0
    ensures WithKey(s, key, key(s[0])) != []
    ensures WithKey(s, key, key(s[0]))[0] == s[0]
  {
  }

  /** In a sequence whose keys are pairwise distinct, the elements with key
      `k` are the one element with that key, or none. */
  lemma {:induction false} WithKeyOfDistinct<T>(s: seq<T>, key: T -> int, k: int)
    requires forall i, j :: 0 <= i < j < |s| ==> key(s[i]) != key(s[j])
    ensures forall x :: x in s && key(x) == k ==> WithKey(s, key, k) == [x]
    ensures (forall x :: x in s ==> key(x) != k) ==> WithKey(s, key, k) == []
  {
    if |s| > 0 {
      var rest := s[1..];
      WithKeyOfDistinct(rest, key, k);
      if key(s[0]) == k {
        forall x | x in rest ensures key(x) != k {
          var i :| 0 <= i < |rest| && rest[i] == x;
          assert s[i + 1] == x;
        }
        forall x | x in s && key(x) == k ensures x == s[0] {
          var i :| 0 <= i < |s| && s[i] == x;
        }
      }
    }
  }

  /** An element's key is at least the key at the front of a sorted
      sequence that contains it. */
  lemma {:induction false} FrontIsLeast<T>(s: seq<T>, key: T -> int, x: T)
    requires SortedBy(s, key) && x in s
    ensures key(s[0]) <= key(x)
  {
    var i :| 0 <= i < |s| && s[i] == x;
    if i > 0 {
      assert key(s[0]) <= key(s[i]);
    }
  }

  lemma {:induction false} SameKeyOrderEmpty<T>(a: seq<T>, b: seq<T>, key: T -> int)
    requires |a| == 0 && SameKeyOrder(a, b, key)
    ensures |b| == 0
  {
    if |b| > 0 {
      WithKeyHead(b, key);
    }
  }

  lemma {:induction false} SameKeyOrderHeads<T>(a: seq<T>, b: seq<T>, key: T -> int)
    requires |a| > 0 && |b| > 0
    requires SortedBy(a, key) && SortedBy(b, key)
    requires SameKeyOrder(a, b, key)
    ensures a[0] == b[0]
  {
    var ka, kb := key(a[0]), key(b[0]);
    WithKeyHead(a, key);
    WithKeyHead(b, key);
    var wa, wb := WithKey(a, key, ka), WithKey(b, key, kb);
    assert wa == WithKey(b, key, ka);
    assert wb == WithKey(a, key, kb);
    FrontIsLeast(b, key, wa[0]);
    FrontIsLeast(a, key, wb[0]);
  }

  lemma {:induction false} SameKeyOrderTails<T>(a: seq<T>, b: seq<T>, key: T -> int)
    requires |a| > 0 && |b| > 0 && a[0] == b[0]
    requires SameKeyOrder(a, b, key)
    ensures SameKeyOrder(a[1..], b[1..], key)
  {
    assert a == [a[0]] + a[1..];
    assert b == [b[0]] + b[1..];
    forall k
      ensures WithKey(a[1..], key, k) == WithKey(b[1..], key, k)
    {
      WithKeyCons(a[0], a[1..], key, k);
      WithKeyCons(b[0], b[1..], key, k);
      var h := Own(a[0], key, k);
      assert WithKey(a, key, k) == WithKey(b, key, k);
      assert WithKey(a[1..], key, k) == WithKey(a, key, k)[|h|..];
      assert WithKey(b[1..], key, k) == WithKey(b, key, k)[|h|..];
    }
  }

  /** A sorted sequence and a stable reordering of it are determined by each
      other: two sorted sequences listing every key's elements in the same
      order are equal. */
  lemma {:induction false} StableSortIsUnique<T>(a: seq<T>, b: seq<T>, key: T -> int)
    requires SortedBy(a, key) && SortedBy(b, key)
    requires SameKeyOrder(a, b, key)
    ensures a == b
  {
    if |a| == 0 {
      SameKeyOrderEmpty(a, b, key);
    } else if |b| == 0 {
      SameKeyOrderEmpty(b, a, key);
    } else {
      SameKeyOrderHeads(a, b, key);
      SameKeyOrderTails(a, b, key);
      StableSortIsUnique(a[1..], b[1..], key);
      assert a == [a[0]] + a[1..];
      assert b == [b[0]] + b[1..];
    }
  }

  /** Sorting input that is already in key order changes nothing. */
  lemma {:induction false} SortOfSortedIsIdentity<T>(s: seq<T>, key: T -> int)
    requires SortedBy(s, key)
    ensures SortBy(s, key) == s
  {
    SortIsStable(s, key);
    StableSortIsUnique(SortBy(s, key), s, key);
  }

  lemma {:induction false} InsertKeepsSum<T>(x: T, t: seq<T>, key: T -> int, f: T -> int)
    requires SortedBy(t, key)
    ensures SumBy(Insert(x, t, key), f) == f(x) + SumBy(t, f)
  {
    if |t| == 0 || key(x) <= key(t[0]) {
    } else {
      InsertKeepsSum(x, t[1..], key, f);
    }
  }

  /** Sorting keeps any sum over the elements. */
  lemma {:induction false} SortKeepsSum<T>(s: seq<T>, key: T -> int, f: T -> int)
    ensures SumBy(SortBy(s, key), f) == SumBy(s, f)
  {
    if |s| > 0 {
      SortKeepsSum(s[1..], key, f);
      InsertKeepsSum(s[0], SortBy(s[1..], key), key, f);
    }
  }
}
