/**
 * `Array.prototype.sort` called with the comparator `(a, b) => key(b) - key(a)`.
 * Since ECMAScript 2019 the sort is stable, so its result is fully determined:
 * keys in non-increasing order, and elements with equal keys in their
 * original order. Insertion sort computes that result.
 */
module Ranking {

  /** Puts `x` in front of the first element whose key does not exceed its own. */
  function Insert<T>(x: T, s: seq<T>, key: T -> int): (r: seq<T>)
    ensures |r| == |s| + 1
    ensures multiset(r) == multiset(s) + multiset{x}
  {
    if s == [] || key(s[0]) <= key(x) then [x] + s
    else
      assert s == [s[0]] + s[1..];
      [s[0]] + Insert(x, s[1..], key)
  }

  /** The sorted copy: keys descending, ties in their original order. */
  function SortDesc<T>(s: seq<T>, key: T -> int): (r: seq<T>)
    ensures |r| == |s|
  {
    if s == [] then [] else Insert(s[0], SortDesc(s[1..], key), key)
  }

  predicate NonIncreasing<T>(s: seq<T>, key: T -> int) {
    forall i, j :: 0 <= i < j < |s| ==> key(s[i]) >= key(s[j])
  }

  /** The elements of `s` whose key is `k`, in their order in `s`. */
  function WithKey<T>(s: seq<T>, key: T -> int, k: int): seq<T> {
    if s == [] then [] else (if key(s[0]) == k then [s[0]] else []) + WithKey(s[1..], key, k)
  }

  lemma {:induction false} InsertSorted<T>(x: T, s: seq<T>, key: T -> int)
    requires NonIncreasing(s, key)
    ensures NonIncreasing(Insert(x, s, key), key)
  {
    if s != [] && key(s[0]) > key(x) {
      InsertSorted(x, s[1..], key);
      var t := Insert(x, s[1..], key);
      forall j | 0 <= j < |t|
        ensures key(s[0]) >= key(t[j])
      {
        assert t[j] in multiset(t);
        if t[j] != x {
          assert t[j] in multiset(s[1..]);
          var m :| 0 <= m < |s[1..]| && s[1..][m] == t[j];
          assert s[m + 1] == t[j];
        }
      }
    }
  }

  /** The ranking is in non-increasing key order and holds the same elements. */
  lemma {:induction false} SortDescSorted<T>(s: seq<T>, key: T -> int)
    ensures NonIncreasing(SortDesc(s, key), key)
    ensures multiset(SortDesc(s, key)) == multiset(s)
  {
    if s != [] {
      SortDescSorted(s[1..], key);
      InsertSorted(s[0], SortDesc(s[1..], key), key);
      MultisetCons(s);
    }
  }

  lemma MultisetCons<T>(s: seq<T>)
    requires s != []
    ensures multiset(s) == multiset{s[0]} + multiset(s[1..])
  {
    assert s == [s[0]] + s[1..];
  }

  lemma ConsAppendSplit<T>(a: seq<T>, b: seq<T>)
    requires a != []
    ensures a == [a[0]] + a[1..]
    ensures a + b == [a[0]] + (a[1..] + b)
  {
  }

  lemma {:induction false} WithKeyAppend<T>(a: seq<T>, b: seq<T>, key: T -> int, k: int)
    ensures WithKey(a + b, key, k) == WithKey(a, key, k) + WithKey(b, key, k)
  {
    if a == [] {
      assert a + b == b;
    } else {
      var t := a[1..];
      var w := if key(a[0]) == k then [a[0]] else [];
      ConsAppendSplit(a, b);
      calc {
        WithKey(a + b, key, k);
        { WithKeyCons(a[0], t + b, key, k); }
        w + WithKey(t + b, key, k);
        { WithKeyAppend(t, b, key, k); }
        w + (WithKey(t, key, k) + WithKey(b, key, k));
        { WithKeyCons(a[0], t, key, k); }
        WithKey(a, key, k) + WithKey(b, key, k);
      }
    }
  }

  lemma WithKeyCons<T>(y: T, t: seq<T>, key: T -> int, k: int)
    ensures WithKey([y] + t, key, k) == (if key(y) == k then [y] else []) + WithKey(t, key, k)
  {
    assert ([y] + t)[1..] == t;
  }

  lemma {:induction false} InsertStable<T>(x: T, s: seq<T>, key: T -> int, k: int)
    ensures WithKey(Insert(x, s, key), key, k) == WithKey([x] + s, key, k)
  {
    if s != [] && key(s[0]) > key(x) {
      var s' := s[1..];
      var wx := if key(x) == k then [x] else [];
      var w0 := if key(s[0]) == k then [s[0]] else [];
      var rest := WithKey(s', key, k);
      calc {
        WithKey(Insert(x, s, key), key, k);
        { WithKeyCons(s[0], Insert(x, s', key), key, k); }
        w0 + WithKey(Insert(x, s', key), key, k);
        { InsertStable(x, s', key, k); WithKeyCons(x, s', key, k); }
        w0 + (wx + rest);
        { if w0 == [] { assert w0 + (wx + rest) == wx + rest == wx + (w0 + rest); }
          else { assert wx == []; assert w0 + (wx + rest) == w0 + rest == wx + (w0 + rest); } }
        wx + (w0 + rest);
        { assert s == [s[0]] + s'; WithKeyCons(s[0], s', key, k); }
        wx + WithKey(s, key, k);
        { WithKeyCons(x, s, key, k); }
        WithKey([x] + s, key, k);
      }
    }
  }

  /** Stability: among elements with any one key, the ranking keeps their original order. */
  lemma {:induction false} SortDescStable<T>(s: seq<T>, key: T -> int, k: int)
    ensures WithKey(SortDesc(s, key), key, k) == WithKey(s, key, k)
  {
    if s != [] {
      var t := SortDesc(s[1..], key);
      calc {
        WithKey(SortDesc(s, key), key, k);
        { InsertStable(s[0], t, key, k); }
        WithKey([s[0]] + t, key, k);
        { WithKeyCons(s[0], t, key, k); SortDescStable(s[1..], key, k); WithKeyCons(s[0], s[1..], key, k); }
        WithKey([s[0]] + s[1..], key, k);
        { ConsAppendSplit(s, []); }
        WithKey(s, key, k);
      }
    }
  }

}
