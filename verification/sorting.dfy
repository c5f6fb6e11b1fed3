/**
 * The two orderings the agent list uses: the stable comparator sort of
 * `Array.prototype.sort` (newest first by a numeric key), and the default string
 * sort of `Array.prototype.sort()` on a duplicate-free list.
 */
module Sorting {

  // Stable sort by a numeric key, largest first

  predicate SortedDesc<T>(s: seq<T>, key: T -> int) {
    forall i, j :: 0 <= i < j < |s| ==> key(s[i]) >= key(s[j])
  }

  /** Places `x` before the first element with a smaller key, so after every equal one. */
  function InsertDesc<T>(x: T, s: seq<T>, key: T -> int): (r: seq<T>)
    ensures |r| == |s| + 1
    ensures multiset(r) == multiset(s) + multiset{x}
    ensures SortedDesc(s, key) ==> SortedDesc(r, key)
  {
    if s == [] then [x]
    else if key(s[0]) < key(x) then [x] + s
    else
      var rest := InsertDesc(x, s[1..], key);
      InsertBehindHead(x, s, rest, key);
      [s[0]] + rest
  }

  /** Keeping the head in front of a tail that had `x` inserted adds `x` to the whole list and keeps it sorted. */
  lemma InsertBehindHead<T>(x: T, s: seq<T>, rest: seq<T>, key: T -> int)
    requires s != [] && key(x) <= key(s[0])
    requires multiset(rest) == multiset(s[1..]) + multiset{x}
    requires SortedDesc(s[1..], key) ==> SortedDesc(rest, key)
    ensures multiset([s[0]] + rest) == multiset(s) + multiset{x}
    ensures SortedDesc(s, key) ==> SortedDesc([s[0]] + rest, key)
  {
    assert s == [s[0]] + s[1..];
    if SortedDesc(s, key) {
      forall k | 0 <= k < |rest|
        ensures key(s[0]) >= key(rest[k])
      {
        assert rest[k] in multiset(rest);
        if rest[k] != x {
          assert rest[k] in multiset(s[1..]);
          var m :| 0 <= m < |s[1..]| && s[1..][m] == rest[k];
          assert s[m + 1] == rest[k];
        }
      }
    }
  }

  /** The comparator sort `(a, b) => key(b) - key(a)`, inserting the elements in list order. */
  function SortDesc<T>(xs: seq<T>, key: T -> int): (r: seq<T>)
    ensures multiset(r) == multiset(xs) && |r| == |xs|
    ensures SortedDesc(r, key)
  {
    if xs == [] then []
    else
      var n := |xs| - 1;
      assert xs == xs[..n] + [xs[n]];
      InsertDesc(xs[n], SortDesc(xs[..n], key), key)
  }

  /** The elements with key `k`, in order. */
  function WithKey<T>(s: seq<T>, key: T -> int, k: int): seq<T> {
    if s == [] then [] else (if key(s[0]) == k then [s[0]] else []) + WithKey(s[1..], key, k)
  }

  lemma {:induction false} WithKeyAppend<T>(s: seq<T>, t: seq<T>, key: T -> int, k: int)
    ensures WithKey(s + t, key, k) == WithKey(s, key, k) + WithKey(t, key, k)
  {
    if s == [] {
      assert s + t == t;
    } else {
      var head := if key(s[0]) == k then [s[0]] else [];
      assert (s + t)[0] == s[0] && (s + t)[1..] == s[1..] + t;
      WithKeyAppend(s[1..], t, key, k);
      assert WithKey(s + t, key, k) == head + (WithKey(s[1..], key, k) + WithKey(t, key, k));
    }
  }

  lemma {:induction false} NoneWithKey<T>(s: seq<T>, key: T -> int, k: int)
    requires forall i :: 0 <= i < |s| ==> key(s[i]) < k
    ensures WithKey(s, key, k) == []
  {
    if s != [] {
      NoneWithKey(s[1..], key, k);
    }
  }

  lemma WithKeyCons<T>(x: T, s: seq<T>, key: T -> int, k: int)
    ensures WithKey([x] + s, key, k) == (if key(x) == k then [x] else []) + WithKey(s, key, k)
  {
    assert ([x] + s)[0] == x && ([x] + s)[1..] == s;
  }

  lemma {:induction false} InsertWithKey<T>(x: T, s: seq<T>, key: T -> int, k: int)
    requires SortedDesc(s, key)
    ensures WithKey(InsertDesc(x, s, key), key, k) == WithKey(s, key, k) + (if key(x) == k then [x] else [])
  {
    if s == [] {
      WithKeyCons(x, s, key, k);
    } else if key(s[0]) < key(x) {
      InsertInFront(x, s, key, k);
    } else {
      assert SortedDesc(s[1..], key);
      InsertWithKey(x, s[1..], key, k);
      InsertFurther(x, s, key, k);
    }
  }

  lemma InsertInFront<T>(x: T, s: seq<T>, key: T -> int, k: int)
    requires SortedDesc(s, key) && s != [] && key(s[0]) < key(x)
    ensures WithKey(InsertDesc(x, s, key), key, k) == WithKey(s, key, k) + (if key(x) == k then [x] else [])
  {
    assert InsertDesc(x, s, key) == [x] + s;
    WithKeyCons(x, s, key, k);
    if key(x) == k {
      NoneWithKey(s, key, k);
    }
  }

  lemma InsertFurther<T>(x: T, s: seq<T>, key: T -> int, k: int)
    requires s != [] && key(s[0]) >= key(x)
    requires WithKey(InsertDesc(x, s[1..], key), key, k) == WithKey(s[1..], key, k) + (if key(x) == k then [x] else [])
    ensures WithKey(InsertDesc(x, s, key), key, k) == WithKey(s, key, k) + (if key(x) == k then [x] else [])
  {
    var rest := InsertDesc(x, s[1..], key);
    assert InsertDesc(x, s, key) == [s[0]] + rest;
    assert s == [s[0]] + s[1..];
    ConsWithKey(s[0], rest, s[1..], if key(x) == k then [x] else [], key, k);
  }

  lemma ConsWithKey<T>(h: T, rest: seq<T>, tail: seq<T>, extra: seq<T>, key: T -> int, k: int)
    requires WithKey(rest, key, k) == WithKey(tail, key, k) + extra
    ensures WithKey([h] + rest, key, k) == WithKey([h] + tail, key, k) + extra
  {
    WithKeyCons(h, rest, key, k);
    WithKeyCons(h, tail, key, k);
    var c0 := if key(h) == k then [h] else [];
    assert c0 + (WithKey(tail, key, k) + extra) == (c0 + WithKey(tail, key, k)) + extra;
  }

  lemma WithKeyLast<T>(xs: seq<T>, key: T -> int, k: int)
    requires xs != []
    ensures WithKey(xs, key, k) == WithKey(xs[..|xs| - 1], key, k) + (if key(xs[|xs| - 1]) == k then [xs[|xs| - 1]] else [])
  {
    var n := |xs| - 1;
    assert xs == xs[..n] + [xs[n]];
    WithKeyAppend(xs[..n], [xs[n]], key, k);
    WithKeyCons(xs[n], [], key, k);
    assert [xs[n]] + [] == [xs[n]];
  }

  /** Elements with equal keys keep their relative order: the sort is stable. */
  lemma {:induction false} SortDescStable<T>(xs: seq<T>, key: T -> int, k: int)
    ensures WithKey(SortDesc(xs, key), key, k) == WithKey(xs, key, k)
  {
    if xs != [] {
      var n := |xs| - 1;
      SortDescStable(xs[..n], key, k);
      InsertWithKey(xs[n], SortDesc(xs[..n], key), key, k);
      WithKeyLast(xs, key, k);
    }
  }

  // Default string order

  /** `a < b` on JavaScript strings of these characters: a proper prefix, or a smaller first difference. */
  predicate LexLess(a: string, b: string) {
    if a == [] then b != []
    else if b == [] then false
    else if a[0] != b[0] then a[0] < b[0]
    else LexLess(a[1..], b[1..])
  }

  lemma {:induction false} LexLessIrreflexive(a: string)
    ensures !LexLess(a, a)
  {
    if a != [] {
      LexLessIrreflexive(a[1..]);
    }
  }

  lemma {:induction false} LexLessTransitive(a: string, b: string, c: string)
    requires LexLess(a, b) && LexLess(b, c)
    ensures LexLess(a, c)
  {
    if a != [] && b != [] && c != [] && a[0] == b[0] && b[0] == c[0] {
      LexLessTransitive(a[1..], b[1..], c[1..]);
    }
  }

  lemma {:induction false} LexLessTotal(a: string, b: string)
    requires a != b
    ensures LexLess(a, b) || LexLess(b, a)
  {
    if a != [] && b != [] && a[0] == b[0] {
      assert a == [a[0]] + a[1..] && b == [b[0]] + b[1..];
      LexLessTotal(a[1..], b[1..]);
    }
  }

  predicate StrictlySorted(s: seq<string>) {
    forall i, j :: 0 <= i < j < |s| ==> LexLess(s[i], s[j])
  }

  /** Adds `x` to a strictly sorted list unless it is already there. */
  function InsertUnique(x: string, s: seq<string>): (r: seq<string>)
    ensures forall y :: y in r <==> y in s || y == x
    ensures StrictlySorted(s) ==> StrictlySorted(r)
  {
    if s == [] then [x]
    else if x == s[0] then s
    else if LexLess(x, s[0]) then
      assert StrictlySorted(s) ==> StrictlySorted([x] + s) by {
        if StrictlySorted(s) {
          forall j | 0 < j < |[x] + s|
            ensures LexLess(x, ([x] + s)[j])
          {
            if j > 1 {
              LexLessTransitive(x, s[0], s[j - 1]);
            }
          }
        }
      }
      [x] + s
    else
      LexLessTotal(x, s[0]);
      var rest := InsertUnique(x, s[1..]);
      assert StrictlySorted(s) ==> StrictlySorted([s[0]] + rest) by {
        if StrictlySorted(s) {
          assert StrictlySorted(s[1..]);
          forall j | 0 <= j < |rest|
            ensures LexLess(s[0], rest[j])
          {
            assert rest[j] in rest;
          }
        }
      }
      [s[0]] + rest
  }
}
