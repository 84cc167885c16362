/** `sorted(iterable, key=...)` (script/coverity_parser.py, line 267). Python's
    sort is stable: items with equal keys keep the order they came in, and
    keys compare as Python strings do. Modelled as an insertion sort. */
module Sorting {
  import opened Strings

  /** The keys never decrease along `s`. */
  ghost predicate SortedBy<T>(s: seq<T>, key: T -> string)
  {
    forall i, j :: 0 <= i < j < |s| ==> LexLe(key(s[i]), key(s[j]))
  }

  /** Place `x` after every leading element whose key is not greater than its own. */
  function Insert<T(==)>(x: T, s: seq<T>, key: T -> string): (r: seq<T>)
    ensures |r| == |s| + 1
    ensures multiset(r) == multiset(s) + multiset{x}
  {
    if s == [] then [x]
    else if LexLess(key(x), key(s[0])) then [x] + s
    else
      assert s == [s[0]] + s[1..];
      [s[0]] + Insert(x, s[1..], key)
  }

  /** The items of `s` ordered by key, equal keys in their original order. */
  function SortBy<T(==)>(s: seq<T>, key: T -> string): (r: seq<T>)
    ensures |r| == |s|
    ensures multiset(r) == multiset(s)
  {
    if s == [] then []
    else
      assert s == s[..|s| - 1] + [s[|s| - 1]];
      Insert(s[|s| - 1], SortBy(s[..|s| - 1], key), key)
  }

  /** A lower bound of the keys of `s` and of `key(x)` bounds the keys of the insertion. */
  lemma {:induction false} InsertLowerBound<T>(b: string, x: T, s: seq<T>, key: T -> string)
    requires LexLe(b, key(x)) && forall k :: 0 <= k < |s| ==> LexLe(b, key(s[k]))
    ensures var r := Insert(x, s, key); forall k :: 0 <= k < |r| ==> LexLe(b, key(r[k]))
  {
    if s != [] && !LexLess(key(x), key(s[0])) {
      InsertLowerBound(b, x, s[1..], key);
      var r := Insert(x, s, key);
      assert forall k :: 1 <= k < |r| ==> r[k] == Insert(x, s[1..], key)[k - 1];
    }
  }

  lemma {:induction false} InsertSorted<T>(x: T, s: seq<T>, key: T -> string)
    requires SortedBy(s, key)
    ensures SortedBy(Insert(x, s, key), key)
  {
    if s == [] {
    } else if LexLess(key(x), key(s[0])) {
      forall j | 0 <= j < |s| ensures LexLe(key(x), key(s[j])) {
        LexLeTransitive(key(x), key(s[0]), key(s[j]));
      }
    } else {
      var t := s[1..];
      assert SortedBy(t, key);
      InsertSorted(x, t, key);
      LexLessTotal(key(x), key(s[0]));
      InsertLowerBound(key(s[0]), x, t, key);
      var r := Insert(x, s, key);
      assert forall k :: 1 <= k < |r| ==> r[k] == Insert(x, t, key)[k - 1];
    }
  }

  /** The result of the sort is ordered by key. */
  lemma {:induction false} SortBySorted<T>(s: seq<T>, key: T -> string)
    ensures SortedBy(SortBy(s, key), key)
  {
    if s != [] {
      SortBySorted(s[..|s| - 1], key);
      InsertSorted(s[|s| - 1], SortBy(s[..|s| - 1], key), key);
    }
  }

  // ------------------------------------------------------------- stability

  /** The items of `s` whose key is `k`, in order. */
  function WithKey<T>(s: seq<T>, key: T -> string, k: string): (r: seq<T>)
    ensures |r| <= |s|
    ensures forall i :: 0 <= i < |r| ==> key(r[i]) == k
  {
    if s == [] then []
    else (if key(s[0]) == k then [s[0]] else []) + WithKey(s[1..], key, k)
  }

  lemma WithKeyCons<T>(y: T, s: seq<T>, key: T -> string, k: string)
    ensures WithKey([y] + s, key, k) == (if key(y) == k then [y] else []) + WithKey(s, key, k)
  {
    assert ([y] + s)[1..] == s;
  }

  lemma {:induction false} WithKeyAppend<T>(a: seq<T>, b: seq<T>, key: T -> string, k: string)
    ensures WithKey(a + b, key, k) == WithKey(a, key, k) + WithKey(b, key, k)
  {
    if a == [] {
      assert a + b == b;
    } else {
      assert (a + b)[0] == a[0] && (a + b)[1..] == a[1..] + b;
      WithKeyAppend(a[1..], b, key, k);
    }
  }

  lemma WithKeySnoc<T>(p: seq<T>, x: T, key: T -> string, k: string)
    ensures WithKey(p + [x], key, k) == WithKey(p, key, k) + (if key(x) == k then [x] else [])
  {
    WithKeyAppend(p, [x], key, k);
    WithKeyCons(x, [], key, k);
    assert [x] + [] == [x];
  }

  /** No item has key `k` when every key is greater than `k`. */
  lemma {:induction false} WithKeyAbove<T>(s: seq<T>, key: T -> string, k: string)
    requires forall i :: 0 <= i < |s| ==> LexLess(k, key(s[i]))
    ensures WithKey(s, key, k) == []
  {
    if s != [] {
      LexLessIrreflexive(k);
      WithKeyAbove(s[1..], key, k);
    }
  }

  /** An item put in front of a sorted sequence whose keys are all greater
      comes last among the items of its key. */
  lemma InsertInFrontWithKey<T>(x: T, s: seq<T>, key: T -> string, k: string)
    requires SortedBy(s, key) && s != [] && LexLess(key(x), key(s[0]))
    ensures WithKey([x] + s, key, k) == WithKey(s, key, k) + (if key(x) == k then [x] else [])
  {
    assert ([x] + s)[1..] == s;
    if key(x) == k {
      forall i | 0 <= i < |s| ensures LexLess(k, key(s[i])) {
        if i > 0 && LexLess(key(s[0]), key(s[i])) {
          LexLessTransitive(k, key(s[0]), key(s[i]));
        }
      }
      WithKeyAbove(s, key, k);
    }
  }

  /** Insertion puts `x` after the items with its own key. */
  lemma {:induction false} InsertWithKey<T>(x: T, s: seq<T>, key: T -> string, k: string)
    requires SortedBy(s, key)
    ensures WithKey(Insert(x, s, key), key, k) ==
      WithKey(s, key, k) + (if key(x) == k then [x] else [])
  {
    if s == [] {
      WithKeyCons(x, [], key, k);
    } else if LexLess(key(x), key(s[0])) {
      InsertInFrontWithKey(x, s, key, k);
    } else {
      assert SortedBy(s[1..], key);
      InsertWithKey(x, s[1..], key, k);
      assert Insert(x, s, key) == [s[0]] + Insert(x, s[1..], key);
      ConsWithKey(s[0], s[1..], Insert(x, s[1..], key), if key(x) == k then [x] else [], key, k);
      assert [s[0]] + s[1..] == s;
    }
  }

  /** Putting the same item in front of two sequences keeps a relation between
      the items of key `k` that they hold. */
  lemma ConsWithKey<T>(y: T, t: seq<T>, r: seq<T>, tail: seq<T>, key: T -> string, k: string)
    requires WithKey(r, key, k) == WithKey(t, key, k) + tail
    ensures WithKey([y] + r, key, k) == WithKey([y] + t, key, k) + tail
  {
    WithKeyCons(y, r, key, k);
    WithKeyCons(y, t, key, k);
  }

  /** The sort is stable: the items with any one key keep their order. */
  lemma {:induction false} SortByStable<T>(s: seq<T>, key: T -> string, k: string)
    ensures WithKey(SortBy(s, key), key, k) == WithKey(s, key, k)
  {
    if s != [] {
      var p, x := s[..|s| - 1], s[|s| - 1];
      assert SortBy(s, key) == Insert(x, SortBy(p, key), key);
      SortByStable(p, key, k);
      SortBySorted(p, key);
      InsertWithKey(x, SortBy(p, key), key, k);
      assert s == p + [x];
      WithKeySnoc(p, x, key, k);
    }
  }
}
