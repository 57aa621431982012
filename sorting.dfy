/**
 * A stable sort by a string key, the behaviour of `Array.prototype.sort` with a
 * comparator that compares keys (ECMAScript requires the sort to be stable).
 */
module Sorting {
  import opened JsStrings
  import opened Seqs

  /** `x` is placed after every element whose key is not greater than its own. */
  function Insert<T>(x: T, s: seq<T>, key: T -> string): (r: seq<T>)
    ensures |r| == |s| + 1
    ensures multiset(r) == multiset(s) + multiset{x}
  {
    if s == [] then [x]
    else if Less(key(x), key(s[0])) then [x] + s
    else
      assert s == [s[0]] + s[1..];
      [s[0]] + Insert(x, s[1..], key)
  }

  /** Insertion sort, inserting the elements from last to first. */
  function SortBy<T>(s: seq<T>, key: T -> string): (r: seq<T>)
    ensures |r| == |s|
    ensures multiset(r) == multiset(s)
  {
    if s == [] then []
    else
      assert s == s[..|s| - 1] + [s[|s| - 1]];
      Insert(s[|s| - 1], SortBy(s[..|s| - 1], key), key)
  }

  /** No element has a smaller key than an element before it. */
  ghost predicate SortedBy<T>(s: seq<T>, key: T -> string) {
    forall i, j :: 0 <= i < j < |s| ==> !Less(key(s[j]), key(s[i]))
  }

  /** The elements of `s` whose key is `k`, in order. */
  function WithKey<T>(s: seq<T>, key: T -> string, k: string): seq<T>
  {
    if s == [] then []
    else (if key(s[0]) == k then [s[0]] else []) + WithKey(s[1..], key, k)
  }

  lemma {:induction false} WithKeyAppend<T>(a: seq<T>, b: seq<T>, key: T -> string, k: string)
    ensures WithKey(a + b, key, k) == WithKey(a, key, k) + WithKey(b, key, k)
    decreases |a|
  {
    if a == [] {
      assert a + b == b;
    } else {
      var head := if key(a[0]) == k then [a[0]] else [];
      assert (a + b)[0] == a[0];
      assert (a + b)[1..] == a[1..] + b;
      assert WithKey(a + b, key, k) == head + WithKey(a[1..] + b, key, k);
      WithKeyAppend(a[1..], b, key, k);
      assert WithKey(a, key, k) == head + WithKey(a[1..], key, k);
    }
  }

  /** In a sorted sequence that starts above `k`, nothing has key `k`. */
  lemma {:induction false} WithKeyAbove<T>(s: seq<T>, key: T -> string, k: string)
    requires SortedBy(s, key)
    requires s != [] && Less(k, key(s[0]))
    ensures WithKey(s, key, k) == []
    decreases |s|
  {
    if key(s[0]) == k {
      LessIrreflexive(k);
    }
    if |s| > 1 {
      assert !Less(key(s[1]), key(s[0]));
      LessTotal(key(s[0]), key(s[1]));
      if Less(key(s[0]), key(s[1])) {
        LessTransitive(k, key(s[0]), key(s[1]));
      }
      WithKeyAbove(s[1..], key, k);
    }
  }

  lemma {:induction false} InsertSorted<T>(x: T, s: seq<T>, key: T -> string)
    requires SortedBy(s, key)
    ensures SortedBy(Insert(x, s, key), key)
    decreases |s|
  {
    if s != [] {
      if Less(key(x), key(s[0])) {
        var r := [x] + s;
        forall i, j | 0 <= i < j < |r| ensures !Less(key(r[j]), key(r[i])) {
          if i == 0 {
            if Less(key(r[j]), key(x)) {
              if j == 1 {
                LessAsymmetric(key(x), key(s[0]));
              } else {
                assert !Less(key(s[j - 1]), key(s[0]));
                LessTotal(key(s[0]), key(s[j - 1]));
                if Less(key(s[0]), key(s[j - 1])) {
                  LessTransitive(key(x), key(s[0]), key(s[j - 1]));
                }
                LessAsymmetric(key(x), key(s[j - 1]));
              }
            }
          }
        }
      } else {
        InsertSorted(x, s[1..], key);
        var t := Insert(x, s[1..], key);
        var r := [s[0]] + t;
        assert multiset(t) == multiset(s[1..]) + multiset{x};
        forall j | 0 <= j < |t| ensures !Less(key(t[j]), key(s[0])) {
          assert t[j] in multiset(t);
          if t[j] == x {
          } else {
            assert t[j] in multiset(s[1..]);
            var m :| 0 <= m < |s[1..]| && s[1..][m] == t[j];
            assert !Less(key(s[m + 1]), key(s[0]));
          }
        }
        forall i, j | 0 <= i < j < |r| ensures !Less(key(r[j]), key(r[i])) {
          if i > 0 {
            assert r[i] == t[i - 1] && r[j] == t[j - 1];
          }
        }
      }
    }
  }

  lemma {:induction false} SortBySorted<T>(s: seq<T>, key: T -> string)
    ensures SortedBy(SortBy(s, key), key)
    decreases |s|
  {
    if s != [] {
      SortBySorted(s[..|s| - 1], key);
      InsertSorted(s[|s| - 1], SortBy(s[..|s| - 1], key), key);
    }
  }

  /** Inserting into a sorted sequence puts `x` after every element with the same key. */
  lemma {:induction false} InsertStable<T>(x: T, s: seq<T>, key: T -> string, k: string)
    requires SortedBy(s, key)
    ensures WithKey(Insert(x, s, key), key, k) == WithKey(s, key, k) + (if key(x) == k then [x] else [])
    decreases |s|
  {
    if s == [] {
      WithKeyCons(x, [], key, k);
      assert [x] + [] == [x];
    } else if Less(key(x), key(s[0])) {
      InsertStableFront(x, s, key, k);
    } else {
      SortedTail(s, key);
      InsertStable(x, s[1..], key, k);
      InsertStableStep(x, s, key, k);
    }
  }

  /** The step of `InsertStable` where `x` goes past the first element; no sortedness is involved. */
  lemma InsertStableStep<T>(x: T, s: seq<T>, key: T -> string, k: string)
    requires s != [] && !Less(key(x), key(s[0]))
    requires WithKey(Insert(x, s[1..], key), key, k) == WithKey(s[1..], key, k) + (if key(x) == k then [x] else [])
    ensures WithKey(Insert(x, s, key), key, k) == WithKey(s, key, k) + (if key(x) == k then [x] else [])
  {
    var extra := if key(x) == k then [x] else [];
    var t := Insert(x, s[1..], key);
    var head := if key(s[0]) == k then [s[0]] else [];
    assert Insert(x, s, key) == [s[0]] + t;
    WithKeyCons(s[0], t, key, k);
    assert s == [s[0]] + s[1..];
    WithKeyCons(s[0], s[1..], key, k);
    Associative(head, WithKey(s[1..], key, k), extra);
    calc {
      WithKey(Insert(x, s, key), key, k);
      head + WithKey(t, key, k);
      head + (WithKey(s[1..], key, k) + extra);
      (head + WithKey(s[1..], key, k)) + extra;
      WithKey(s, key, k) + extra;
    }
  }

  lemma WithKeyCons<T>(h: T, t: seq<T>, key: T -> string, k: string)
    ensures WithKey([h] + t, key, k) == (if key(h) == k then [h] else []) + WithKey(t, key, k)
  {
    assert ([h] + t)[1..] == t;
  }

  lemma SortedTail<T>(s: seq<T>, key: T -> string)
    requires SortedBy(s, key) && s != []
    ensures SortedBy(s[1..], key)
  {
    forall i, j | 0 <= i < j < |s| - 1 ensures !Less(key(s[1..][j]), key(s[1..][i])) {
      assert s[1..][j] == s[j + 1] && s[1..][i] == s[i + 1];
    }
  }

  /** The case of `InsertStable` where `x` goes first. */
  lemma InsertStableFront<T>(x: T, s: seq<T>, key: T -> string, k: string)
    requires SortedBy(s, key)
    requires s != [] && Less(key(x), key(s[0]))
    ensures WithKey([x] + s, key, k) == WithKey(s, key, k) + (if key(x) == k then [x] else [])
  {
    assert ([x] + s)[1..] == s;
    if key(x) == k {
      WithKeyAbove(s, key, k);
    }
  }

  /** The sort is stable: elements with equal keys keep their relative order. */
  lemma {:induction false} SortByStable<T>(s: seq<T>, key: T -> string, k: string)
    ensures WithKey(SortBy(s, key), key, k) == WithKey(s, key, k)
    decreases |s|
  {
    if s != [] {
      var init, last := s[..|s| - 1], s[|s| - 1];
      assert s == init + [last];
      var extra := if key(last) == k then [last] else [];
      assert SortBy(s, key) == Insert(last, SortBy(init, key), key);
      SortByStable(init, key, k);
      SortBySorted(init, key);
      InsertStable(last, SortBy(init, key), key, k);
      assert WithKey(SortBy(s, key), key, k) == WithKey(init, key, k) + extra;
      WithKeyAppend(init, [last], key, k);
      assert WithKey([last], key, k) == extra + WithKey([], key, k);
    }
  }
}
