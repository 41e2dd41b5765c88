/**
  Python's `list.sort(key=..., reverse=...)` on string keys, as the value it leaves in the
  list: a stable sort (equal keys keep their relative order, also when reversed).
*/
module Sorting {
  import opened Text

  /** `a` may stand before `b`: not after it in the requested direction. */
  predicate InOrder(a: string, b: string, descending: bool)
  {
    if descending then LexLe(b, a) else LexLe(a, b)
  }

  lemma InOrderTransitive(a: string, b: string, c: string, descending: bool)
    requires InOrder(a, b, descending) && InOrder(b, c, descending)
    ensures InOrder(a, c, descending)
  {
    if descending {
      LexLeTransitive(c, b, a);
    } else {
      LexLeTransitive(a, b, c);
    }
  }

  lemma InOrderTotal(a: string, b: string, descending: bool)
    ensures InOrder(a, b, descending) || InOrder(b, a, descending)
  {
    LexLessNotLe(a, b);
  }

  predicate SortedBy<T>(s: seq<T>, key: T -> string, descending: bool)
  {
    forall i, j :: 0 <= i < j < |s| ==> InOrder(key(s[i]), key(s[j]), descending)
  }

  /** Puts `x` in front of every element of the sorted `ys` it does not strictly follow. */
  function Insert<T>(x: T, ys: seq<T>, key: T -> string, descending: bool): (r: seq<T>)
    ensures multiset(r) == multiset(ys) + multiset{x}
    ensures SortedBy(ys, key, descending) ==> SortedBy(r, key, descending)
  {
    if |ys| == 0 then [x]
    else if !InOrder(key(x), key(ys[0]), descending) then
      var rest := Insert(x, ys[1..], key, descending);
      assert ys == [ys[0]] + ys[1..];
      InsertSorted(x, ys, rest, key, descending);
      [ys[0]] + rest
    else
      assert SortedBy(ys, key, descending) ==> SortedBy([x] + ys, key, descending) by {
        if SortedBy(ys, key, descending) {
          forall j | 1 <= j < |[x] + ys|
            ensures InOrder(key(x), key(([x] + ys)[j]), descending)
          {
            if j > 1 {
              InOrderTransitive(key(x), key(ys[0]), key(ys[j - 1]), descending);
            }
          }
        }
      }
      [x] + ys
  }

  lemma InsertSorted<T>(x: T, ys: seq<T>, rest: seq<T>, key: T -> string, descending: bool)
    requires |ys| > 0 && !InOrder(key(x), key(ys[0]), descending)
    requires multiset(rest) == multiset(ys[1..]) + multiset{x}
    requires SortedBy(ys[1..], key, descending) ==> SortedBy(rest, key, descending)
    ensures SortedBy(ys, key, descending) ==> SortedBy([ys[0]] + rest, key, descending)
  {
    if SortedBy(ys, key, descending) {
      assert SortedBy(ys[1..], key, descending) by {
        forall i, j | 0 <= i < j < |ys[1..]|
          ensures InOrder(key(ys[1..][i]), key(ys[1..][j]), descending)
        {
          assert ys[1..][i] == ys[i + 1] && ys[1..][j] == ys[j + 1];
        }
      }
      InOrderTotal(key(x), key(ys[0]), descending);
      forall j | 0 <= j < |rest|
        ensures InOrder(key(ys[0]), key(rest[j]), descending)
      {
        assert rest[j] in multiset(rest);
        if rest[j] != x {
          assert rest[j] in multiset(ys[1..]);
          var k :| 0 <= k < |ys[1..]| && ys[1..][k] == rest[j];
          assert ys[1..][k] == ys[k + 1];
        }
      }
    }
  }

  /** The list `xs` after `xs.sort(key=key, reverse=descending)`. */
  function SortBy<T>(xs: seq<T>, key: T -> string, descending: bool): (r: seq<T>)
    ensures multiset(r) == multiset(xs)
    ensures SortedBy(r, key, descending)
  {
    if |xs| == 0 then []
    else
      assert xs == [xs[0]] + xs[1..];
      Insert(xs[0], SortBy(xs[1..], key, descending), key, descending)
  }

  /** The elements of `xs` whose key is `k`, in their order in `xs`. */
  function WithKey<T>(xs: seq<T>, key: T -> string, k: string): (r: seq<T>)
    ensures |r| <= |xs|
  {
    if |xs| == 0 then []
    else (if key(xs[0]) == k then [xs[0]] else []) + WithKey(xs[1..], key, k)
  }

  lemma WithKeyCons<T>(x: T, ys: seq<T>, key: T -> string, k: string)
    ensures WithKey([x] + ys, key, k) == (if key(x) == k then [x] else []) + WithKey(ys, key, k)
  {
    assert ([x] + ys)[1..] == ys;
  }

  /** Passing over an element with another key keeps `x` in front of its own key. */
  lemma WithKeyPast<T>(x: T, y: T, ys: seq<T>, rest: seq<T>, key: T -> string, k: string)
    requires key(y) != key(x)
    requires WithKey(rest, key, k) == (if key(x) == k then [x] else []) + WithKey(ys, key, k)
    ensures WithKey([y] + rest, key, k) == (if key(x) == k then [x] else []) + WithKey([y] + ys, key, k)
  {
    WithKeyCons(y, rest, key, k);
    WithKeyCons(y, ys, key, k);
  }

  /** Inserting `x` puts it in front of every element with its key. */
  lemma {:induction false} InsertStable<T>(x: T, ys: seq<T>, key: T -> string, descending: bool, k: string)
    ensures WithKey(Insert(x, ys, key, descending), key, k) == (if key(x) == k then [x] else []) + WithKey(ys, key, k)
  {
    if |ys| == 0 {
      WithKeyCons(x, ys, key, k);
    } else if !InOrder(key(x), key(ys[0]), descending) {
      InsertStable(x, ys[1..], key, descending, k);
      InOrderTotal(key(x), key(x), descending);
      assert ys == [ys[0]] + ys[1..];
      WithKeyPast(x, ys[0], ys[1..], Insert(x, ys[1..], key, descending), key, k);
    } else {
      WithKeyCons(x, ys, key, k);
    }
  }

  /** `SortBy` is stable: the elements with any one key come in the order they had in `xs`. */
  lemma {:induction false} SortByStable<T>(xs: seq<T>, key: T -> string, descending: bool, k: string)
    ensures WithKey(SortBy(xs, key, descending), key, k) == WithKey(xs, key, k)
  {
    if |xs| > 0 {
      SortByStable(xs[1..], key, descending, k);
      InsertStable(xs[0], SortBy(xs[1..], key, descending), key, descending, k);
    }
  }
}
