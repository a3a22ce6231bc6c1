// Descending, stable ordering by a real-valued key, as produced by
// JavaScript's Array.prototype.sort with a comparator `(a, b) => key(b) - key(a)`
// (the language requires that sort to be stable). Used by the phrase matcher
// (best score first) and by the history list (newest first).
module StableSort {

  /** Every element's key is at least the key of every later element. */
  predicate SortedDesc<T>(s: seq<T>, key: T -> real)
  {
    forall i, j :: 0 <= i < j < |s| ==> key(s[i]) >= key(s[j])
  }

  /** Inserts `x` after every element whose key is at least `key(x)`, so that
    * equal keys keep their arrival order. */
  function Insert<T>(x: T, s: seq<T>, key: T -> real): (r: seq<T>)
    ensures |r| == |s| + 1
  {
    if |s| == 0 then [x]
    else if key(s[0]) >= key(x) then [s[0]] + Insert(x, s[1..], key)
    else [x] + s
  }

  /** Insertion sort that consumes the input from the front: the result of
    * sorting `s` with its last element inserted afterwards. */
  function SortDesc<T>(s: seq<T>, key: T -> real): (r: seq<T>)
    ensures |r| == |s|
  {
    if |s| == 0 then [] else Insert(s[|s| - 1], SortDesc(s[..|s| - 1], key), key)
  }

  /** The earliest element of maximal key. */
  function FirstMax<T>(s: seq<T>, key: T -> real): T
    requires |s| > 0
  {
    if |s| == 1 then s[0]
    else
      var m := FirstMax(s[..|s| - 1], key);
      if key(s[|s| - 1]) > key(m) then s[|s| - 1] else m
  }

  /** The elements whose key is at least `bound`, in their original order. */
  function AtLeast<T>(s: seq<T>, key: T -> real, bound: real): seq<T>
  {
    if |s| == 0 then []
    else
      var rest := AtLeast(s[..|s| - 1], key, bound);
      if key(s[|s| - 1]) >= bound then rest + [s[|s| - 1]] else rest
  }

  /** The elements whose key is strictly above `bound`, in their original order. */
  function Above<T>(s: seq<T>, key: T -> real, bound: real): seq<T>
  {
    if |s| == 0 then []
    else
      var rest := Above(s[..|s| - 1], key, bound);
      if key(s[|s| - 1]) > bound then rest + [s[|s| - 1]] else rest
  }

  lemma {:induction false} InsertPermutes<T>(x: T, s: seq<T>, key: T -> real)
    ensures multiset(Insert(x, s, key)) == multiset(s) + multiset{x}
    ensures |Insert(x, s, key)| == |s| + 1
  {
    if |s| > 0 && key(s[0]) >= key(x) {
      InsertPermutes(x, s[1..], key);
      assert s == [s[0]] + s[1..];
    }
  }

  lemma InsertHead<T>(x: T, s: seq<T>, key: T -> real)
    ensures Insert(x, s, key)[0] == if |s| == 0 || key(x) > key(s[0]) then x else s[0]
  {
  }

  lemma {:induction false} InsertSorted<T>(x: T, s: seq<T>, key: T -> real)
    requires SortedDesc(s, key)
    ensures SortedDesc(Insert(x, s, key), key)
  {
    if |s| > 0 && key(s[0]) >= key(x) {
      InsertSorted(x, s[1..], key);
      InsertPermutes(x, s[1..], key);
      var r := Insert(x, s[1..], key);
      assert r[0] == x || r[0] == s[1] by {
        InsertHead(x, s[1..], key);
      }
      var t := [s[0]] + r;
      forall i, j | 0 <= i < j < |t|
        ensures key(t[i]) >= key(t[j])
      {
        if i == 0 && j > 1 {
          assert key(r[0]) >= key(r[j - 1]);
        }
      }
    } else if |s| > 0 {
      var t := [x] + s;
      forall i, j | 0 <= i < j < |t|
        ensures key(t[i]) >= key(t[j])
      {
        if i == 0 && j > 1 {
          assert key(s[0]) >= key(s[j - 1]);
        }
      }
    }
  }

  /** The sort orders by key, descending. */
  lemma {:induction false} SortDescIsSorted<T>(s: seq<T>, key: T -> real)
    ensures SortedDesc(SortDesc(s, key), key)
    ensures |SortDesc(s, key)| == |s|
  {
    if |s| > 0 {
      SortDescIsSorted(s[..|s| - 1], key);
      InsertSorted(s[|s| - 1], SortDesc(s[..|s| - 1], key), key);
      InsertPermutes(s[|s| - 1], SortDesc(s[..|s| - 1], key), key);
    }
  }

  /** The sort neither loses nor invents elements. */
  lemma {:induction false} SortDescIsPermutation<T>(s: seq<T>, key: T -> real)
    ensures multiset(SortDesc(s, key)) == multiset(s)
  {
    if |s| > 0 {
      SortDescIsPermutation(s[..|s| - 1], key);
      InsertPermutes(s[|s| - 1], SortDesc(s[..|s| - 1], key), key);
      assert s == s[..|s| - 1] + [s[|s| - 1]];
    }
  }

  /** Stability at the head: the first element after sorting is the earliest
    * element of maximal key, so ties go to the earliest input. */
  lemma {:induction false} SortDescHeadIsFirstMax<T>(s: seq<T>, key: T -> real)
    requires |s| > 0
    ensures SortDesc(s, key)[0] == FirstMax(s, key)
  {
    SortDescIsSorted(s[..|s| - 1], key);
    InsertHead(s[|s| - 1], SortDesc(s[..|s| - 1], key), key);
    if |s| > 1 {
      SortDescHeadIsFirstMax(s[..|s| - 1], key);
    }
  }

  /** The first maximum is an element and bounds every element. */
  lemma {:induction false} FirstMaxIsMaximal<T>(s: seq<T>, key: T -> real)
    requires |s| > 0
    ensures FirstMax(s, key) in s
    ensures forall i :: 0 <= i < |s| ==> key(s[i]) <= key(FirstMax(s, key))
  {
    if |s| > 1 {
      FirstMaxIsMaximal(s[..|s| - 1], key);
      assert forall i :: 0 <= i < |s| - 1 ==> s[i] == s[..|s| - 1][i];
    }
  }

  /** Filtering out elements below the maximum does not change the first maximum. */
  lemma {:induction false} FirstMaxOfAtLeast<T>(s: seq<T>, key: T -> real, bound: real)
    requires |s| > 0 && key(FirstMax(s, key)) >= bound
    ensures |AtLeast(s, key, bound)| > 0
    ensures FirstMax(AtLeast(s, key, bound), key) == FirstMax(s, key)
  {
    var init := s[..|s| - 1];
    var last := s[|s| - 1];
    if |s| > 1 {
      if key(FirstMax(init, key)) >= bound {
        FirstMaxOfAtLeast(init, key, bound);
        AtLeastBounded(init, key, bound);
        var f := AtLeast(init, key, bound);
        if key(last) >= bound {
          assert (f + [last])[..|f + [last]| - 1] == f;
        }
      } else {
        FirstMaxIsMaximal(init, key);
        AtLeastEmpty(init, key, bound);
        assert AtLeast(s, key, bound) == [last];
      }
    }
  }

  /** No element reaches the bound exactly when the filter is empty. */
  lemma {:induction false} AtLeastEmpty<T>(s: seq<T>, key: T -> real, bound: real)
    requires forall i :: 0 <= i < |s| ==> key(s[i]) < bound
    ensures AtLeast(s, key, bound) == []
  {
    if |s| > 0 {
      AtLeastEmpty(s[..|s| - 1], key, bound);
    }
  }

  /** Every element kept by the filter reaches the bound and comes from the input. */
  lemma {:induction false} AtLeastBounded<T>(s: seq<T>, key: T -> real, bound: real)
    ensures forall x :: x in AtLeast(s, key, bound) ==> key(x) >= bound && x in s
    ensures |AtLeast(s, key, bound)| <= |s|
  {
    if |s| > 0 {
      AtLeastBounded(s[..|s| - 1], key, bound);
      assert forall x :: x in s[..|s| - 1] ==> x in s;
    }
  }

  /** Every element kept by the strict filter is above the bound and comes from the input. */
  lemma {:induction false} AboveBounded<T>(s: seq<T>, key: T -> real, bound: real)
    ensures forall x :: x in Above(s, key, bound) ==> key(x) > bound && x in s
  {
    if |s| > 0 {
      AboveBounded(s[..|s| - 1], key, bound);
      assert forall x :: x in s[..|s| - 1] ==> x in s;
    }
  }

  /** A prefix of a sorted list is sorted, and no element after the prefix
    * has a larger key than any element in it. */
  lemma SortedPrefixIsTop<T>(s: seq<T>, key: T -> real, k: nat)
    requires SortedDesc(s, key) && k <= |s|
    ensures SortedDesc(s[..k], key)
    ensures forall i, y :: 0 <= i < k && y in multiset(s[k..]) ==> key(y) <= key(s[i])
  {
    forall i, y | 0 <= i < k && y in multiset(s[k..])
      ensures key(y) <= key(s[i])
    {
      var j :| 0 <= j < |s[k..]| && s[k..][j] == y;
      assert s[k + j] == y;
    }
  }

  /** The first `k` elements of the sorted list: exactly `k` of them, sorted,
    * drawn from the input, all of it when `k` is the whole length, and every
    * element left out has a key no larger than any element kept. */
  lemma SortDescTop<T>(s: seq<T>, key: T -> real, k: nat)
    requires k <= |s|
    ensures var top := SortDesc(s, key)[..k];
      && |top| == k
      && SortedDesc(top, key)
      && multiset(top) <= multiset(s)
      && (k == |s| ==> multiset(top) == multiset(s))
      && forall i, y :: 0 <= i < k && y in multiset(s) - multiset(top) ==> key(y) <= key(top[i])
  {
    var t := SortDesc(s, key);
    var top := t[..k];
    SortDescIsSorted(s, key);
    SortDescIsPermutation(s, key);
    SortedPrefixIsTop(t, key, k);
    MultisetOfSplit(t, k);
    forall i, y | 0 <= i < k && y in multiset(s) - multiset(top)
      ensures key(y) <= key(top[i])
    {
      assert y in multiset(t[k..]);
      assert top[i] == t[i];
    }
  }

  /** Splitting a list splits its multiset. */
  lemma MultisetOfSplit<T>(s: seq<T>, k: nat)
    requires k <= |s|
    ensures multiset(s) == multiset(s[..k]) + multiset(s[k..])
    ensures k == |s| ==> s[..k] == s
  {
    assert s == s[..k] + s[k..];
  }

  /** The elements whose key equals `v`, in their order. */
  function WithKey<T>(s: seq<T>, key: T -> real, v: real): seq<T>
  {
    if |s| == 0 then []
    else (if key(s[0]) == v then [s[0]] else []) + WithKey(s[1..], key, v)
  }

  lemma {:induction false} WithKeyAppend<T>(a: seq<T>, b: seq<T>, key: T -> real, v: real)
    ensures WithKey(a + b, key, v) == WithKey(a, key, v) + WithKey(b, key, v)
  {
    if |a| == 0 {
      assert a + b == b;
    } else {
      var ab := a + b;
      var h := if key(a[0]) == v then [a[0]] else [];
      assert ab[0] == a[0];
      assert ab[1..] == a[1..] + b;
      assert WithKey(ab, key, v) == h + WithKey(a[1..] + b, key, v);
      WithKeyAppend(a[1..], b, key, v);
      assert WithKey(a, key, v) == h + WithKey(a[1..], key, v);
    }
  }

  lemma {:induction false} WithKeyNone<T>(s: seq<T>, key: T -> real, v: real)
    requires forall i :: 0 <= i < |s| ==> key(s[i]) < v
    ensures WithKey(s, key, v) == []
  {
    if |s| > 0 {
      WithKeyNone(s[1..], key, v);
    }
  }

  /** Inserting into a sorted list puts the new element after every element
    * of the same key. */
  lemma {:induction false} InsertWithKey<T>(x: T, s: seq<T>, key: T -> real, v: real)
    requires SortedDesc(s, key)
    decreases |s|, 1
    ensures WithKey(Insert(x, s, key), key, v) == WithKey(s, key, v) + WithKey([x], key, v)
  {
    if |s| == 0 {
      assert Insert(x, s, key) == [x];
    } else if key(s[0]) >= key(x) {
      InsertBehind(x, s, key, v);
    } else {
      InsertInFront(x, s, key, v);
    }
  }

  lemma {:induction false} InsertBehind<T>(x: T, s: seq<T>, key: T -> real, v: real)
    requires SortedDesc(s, key) && |s| > 0 && key(s[0]) >= key(x)
    ensures WithKey(Insert(x, s, key), key, v) == WithKey(s, key, v) + WithKey([x], key, v)
    decreases |s|, 0
  {
    var rest := s[1..];
    assert SortedDesc(rest, key) by {
      forall i, j | 0 <= i < j < |rest|
        ensures key(rest[i]) >= key(rest[j])
      {
        assert rest[i] == s[i + 1] && rest[j] == s[j + 1];
      }
    }
    InsertWithKey(x, rest, key, v);
    var r := Insert(x, rest, key);
    assert Insert(x, s, key) == [s[0]] + r;
    WithKeyAppend([s[0]], r, key, v);
    WithKeyAppend([s[0]], rest, key, v);
    assert s == [s[0]] + rest;
  }

  lemma {:induction false} InsertInFront<T>(x: T, s: seq<T>, key: T -> real, v: real)
    requires SortedDesc(s, key) && |s| > 0 && key(s[0]) < key(x)
    ensures WithKey(Insert(x, s, key), key, v) == WithKey(s, key, v) + WithKey([x], key, v)
  {
    assert Insert(x, s, key) == [x] + s;
    WithKeyAppend([x], s, key, v);
    if key(x) == v {
      assert forall i :: 0 <= i < |s| ==> key(s[i]) <= key(s[0]);
      WithKeyNone(s, key, v);
    } else {
      assert WithKey([x], key, v) == [];
    }
  }

  /** Stability: for every key, the elements with that key appear in the
    * sorted list in the order they had in the input. */
  lemma {:induction false} SortDescIsStable<T>(s: seq<T>, key: T -> real, v: real)
    ensures WithKey(SortDesc(s, key), key, v) == WithKey(s, key, v)
  {
    if |s| > 0 {
      var init := s[..|s| - 1];
      SortDescIsStable(init, key, v);
      SortDescIsSorted(init, key);
      InsertWithKey(s[|s| - 1], SortDesc(init, key), key, v);
      assert s == init + [s[|s| - 1]];
      WithKeyAppend(init, [s[|s| - 1]], key, v);
    }
  }
}
