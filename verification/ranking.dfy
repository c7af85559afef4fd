/** Ranking cards: `Array.prototype.sort` with the numeric comparator
    `(a, b) => key(b) - key(a)`. Since ECMA-262 (2019 edition, section
    23.1.3.30 of the current text) requires that sort to be stable, its result
    is fully determined: the input ordered by non-increasing key, elements of
    equal key in their input order. Here that result is computed by an
    insertion sort on sequences and characterised by `IsStableDescending`. */
module Ranking {

  /** Non-increasing in the key. */
  ghost predicate SortedDesc<T>(s: seq<T>, key: T -> int) {
    forall i, j :: 0 <= i < j < |s| ==> key(s[i]) >= key(s[j])
  }

  /** The elements of `s` whose key is `k`, in the order `s` has them. */
  function WithKey<T>(s: seq<T>, key: T -> int, k: int): (r: seq<T>)
    ensures |r| <= |s|
    ensures forall x :: x in r ==> x in s && key(x) == k
  {
    if |s| == 0 then []
    else (if key(s[0]) == k then [s[0]] else []) + WithKey(s[1..], key, k)
  }

  /** What the comparator sort returns for `s`: a permutation of `s` (`t`),
      ordered by non-increasing key, in which the elements of every key appear
      in their input order. */
  ghost predicate IsStableDescending<T>(s: seq<T>, t: seq<T>, key: T -> int) {
    && multiset(t) == multiset(s)
    && SortedDesc(t, key)
    && forall k :: WithKey(t, key, k) == WithKey(s, key, k)
  }

  /** Inserts `x` into a sequence sorted by non-increasing key, in front of
      every element whose key is not above its own. */
  function Insert<T>(x: T, s: seq<T>, key: T -> int): (r: seq<T>)
    ensures |r| == |s| + 1
    ensures multiset(r) == multiset(s) + multiset{x}
  {
    if |s| == 0 then [x]
    else
      assert s == [s[0]] + s[1..];
      if key(s[0]) > key(x) then [s[0]] + Insert(x, s[1..], key)
      else [x] + s
  }

  /** The stable descending sort: insert the head into the sorted tail. */
  function SortDesc<T>(s: seq<T>, key: T -> int): (r: seq<T>)
    ensures |r| == |s|
    ensures multiset(r) == multiset(s)
  {
    if |s| == 0 then []
    else
      assert s == [s[0]] + s[1..];
      Insert(s[0], SortDesc(s[1..], key), key)
  }

  // ---------------------------------------------------------------------------
  // Ordering

  /** Inserting below a bound keeps every key below it. */
  lemma {:induction false} InsertBounded<T>(x: T, s: seq<T>, key: T -> int, m: int)
    requires key(x) <= m
    requires forall i :: 0 <= i < |s| ==> key(s[i]) <= m
    ensures forall i :: 0 <= i < |s| + 1 ==> key(Insert(x, s, key)[i]) <= m
  {
    if |s| > 0 && key(s[0]) > key(x) {
      InsertBounded(x, s[1..], key, m);
      var r := Insert(x, s[1..], key);
      assert forall i :: 0 < i < |s| + 1 ==> ([s[0]] + r)[i] == r[i - 1];
    }
  }

  lemma {:induction false} InsertSorted<T>(x: T, s: seq<T>, key: T -> int)
    requires SortedDesc(s, key)
    ensures SortedDesc(Insert(x, s, key), key)
  {
    if |s| > 0 && key(s[0]) > key(x) {
      SortedTail(s, key);
      InsertSorted(x, s[1..], key);
      var r := Insert(x, s[1..], key);
      assert forall i :: 0 <= i < |s[1..]| ==> key(s[1..][i]) <= key(s[0]) by {
        forall i | 0 <= i < |s[1..]| ensures key(s[1..][i]) <= key(s[0]) {
          assert s[1..][i] == s[i + 1];
        }
      }
      InsertBounded(x, s[1..], key, key(s[0]));
      var t := [s[0]] + r;
      forall i, j | 0 <= i < j < |t|
        ensures key(t[i]) >= key(t[j])
      {
        assert t[j] == r[j - 1];
        if i > 0 {
          assert t[i] == r[i - 1];
        }
      }
    } else if |s| > 0 {
      var t := [x] + s;
      forall i, j | 0 <= i < j < |t|
        ensures key(t[i]) >= key(t[j])
      {
        assert t[j] == s[j - 1];
        if i > 0 {
          assert t[i] == s[i - 1];
        } else {
          assert key(s[0]) >= key(s[j - 1]);
        }
      }
    }
  }

  lemma {:induction false} SortDescSorted<T>(s: seq<T>, key: T -> int)
    ensures SortedDesc(SortDesc(s, key), key)
  {
    if |s| > 0 {
      SortDescSorted(s[1..], key);
      InsertSorted(s[0], SortDesc(s[1..], key), key);
    }
  }

  // ---------------------------------------------------------------------------
  // Stability

  lemma {:induction false} WithKeyAbsent<T>(s: seq<T>, key: T -> int, k: int)
    requires forall i :: 0 <= i < |s| ==> key(s[i]) != k
    ensures WithKey(s, key, k) == []
  {
    if |s| > 0 {
      WithKeyAbsent(s[1..], key, k);
    }
  }

  /** Inserting `x` puts it in front of the elements of its own key and leaves
      every other key's elements as they were. */
  lemma {:induction false} WithKeyInsert<T>(x: T, s: seq<T>, key: T -> int, k: int)
    requires SortedDesc(s, key)
    ensures WithKey(Insert(x, s, key), key, k)
            == (if key(x) == k then [x] else []) + WithKey(s, key, k)
  {
    if |s| == 0 {
    } else if key(s[0]) > key(x) {
      SortedTail(s, key);
      WithKeyInsert(x, s[1..], key, k);
      var r := Insert(x, s[1..], key);
      assert Insert(x, s, key) == [s[0]] + r;
      WithKeyPrepend(s[0], r, key, k);
      WithKeyOfTail(s, key, k);
      var rest := WithKey(s[1..], key, k);
      if key(x) == k {
        // s[0] ranks above x, so it is not among the elements of key k
        assert WithKey([s[0]] + r, key, k) == WithKey(r, key, k) == [x] + rest;
        assert WithKey(s, key, k) == rest;
      } else {
        assert WithKey(r, key, k) == rest;
      }
    } else {
      assert Insert(x, s, key) == [x] + s;
      WithKeyPrepend(x, s, key, k);
    }
  }

  lemma {:induction false} WithKeyPrepend<T>(y: T, r: seq<T>, key: T -> int, k: int)
    ensures WithKey([y] + r, key, k) == (if key(y) == k then [y] else []) + WithKey(r, key, k)
  {
    assert ([y] + r)[0] == y && ([y] + r)[1..] == r;
  }

  lemma {:induction false} SortDescStable<T>(s: seq<T>, key: T -> int, k: int)
    ensures WithKey(SortDesc(s, key), key, k) == WithKey(s, key, k)
  {
    if |s| > 0 {
      SortDescSorted(s[1..], key);
      WithKeyInsert(s[0], SortDesc(s[1..], key), key, k);
      SortDescStable(s[1..], key, k);
    }
  }

  /** The insertion sort computes what the stable comparator sort returns. */
  lemma SortDescIsStableDescending<T>(s: seq<T>, key: T -> int)
    ensures IsStableDescending(s, SortDesc(s, key), key)
  {
    SortDescSorted(s, key);
    forall k ensures WithKey(SortDesc(s, key), key, k) == WithKey(s, key, k) {
      SortDescStable(s, key, k);
    }
  }

  // ---------------------------------------------------------------------------
  // Uniqueness: a sorted sequence is determined by its per-key subsequences.

  lemma {:induction false} SortedHeadIsMax<T>(t: seq<T>, key: T -> int, k: int)
    requires SortedDesc(t, key) && |t| > 0
    requires WithKey(t, key, k) != []
    ensures key(t[0]) >= k
  {
    if key(t[0]) < k {
      WithKeyAbsent(t, key, k);
    }
  }

  lemma {:induction false} WithKeyOfTail<T>(t: seq<T>, key: T -> int, k: int)
    requires |t| > 0
    ensures key(t[0]) == k ==> WithKey(t, key, k) == [t[0]] + WithKey(t[1..], key, k)
    ensures key(t[0]) != k ==> WithKey(t, key, k) == WithKey(t[1..], key, k)
  {
  }

  lemma {:induction false} SortedTail<T>(t: seq<T>, key: T -> int)
    requires SortedDesc(t, key) && |t| > 0
    ensures SortedDesc(t[1..], key)
  {
    forall i, j | 0 <= i < j < |t[1..]|
      ensures key(t[1..][i]) >= key(t[1..][j])
    {
      assert t[1..][i] == t[i + 1] && t[1..][j] == t[j + 1];
    }
  }

  lemma {:induction false} WithKeyEmpty<T>(t: seq<T>, key: T -> int)
    requires |t| > 0
    ensures WithKey(t, key, key(t[0])) != []
  {
  }

  /** Two sorted sequences with the same per-key subsequences start with the
      same element. */
  lemma SameHead<T>(t: seq<T>, u: seq<T>, key: T -> int)
    requires SortedDesc(t, key) && SortedDesc(u, key) && |t| > 0 && |u| > 0
    requires WithKey(t, key, key(t[0])) == WithKey(u, key, key(t[0]))
    requires WithKey(t, key, key(u[0])) == WithKey(u, key, key(u[0]))
    ensures t[0] == u[0]
  {
    var kt, ku := key(t[0]), key(u[0]);
    WithKeyEmpty(t, key);
    WithKeyEmpty(u, key);
    SortedHeadIsMax(u, key, kt);
    SortedHeadIsMax(t, key, ku);
    WithKeyOfTail(t, key, kt);
    WithKeyOfTail(u, key, kt);
    assert WithKey(t, key, kt)[0] == t[0];
    assert WithKey(u, key, kt)[0] == u[0];
  }

  /** Dropping an equal head keeps the per-key subsequences equal. */
  lemma TailsAgree<T>(t: seq<T>, u: seq<T>, key: T -> int, k: int)
    requires |t| > 0 && |u| > 0 && t[0] == u[0]
    requires WithKey(t, key, k) == WithKey(u, key, k)
    ensures WithKey(t[1..], key, k) == WithKey(u[1..], key, k)
  {
    WithKeyOfTail(t, key, k);
    WithKeyOfTail(u, key, k);
    if key(t[0]) == k {
      assert WithKey(t[1..], key, k) == WithKey(t, key, k)[1..];
      assert WithKey(u[1..], key, k) == WithKey(u, key, k)[1..];
    }
  }

  lemma {:induction false} SortedUnique<T>(t: seq<T>, u: seq<T>, key: T -> int)
    requires SortedDesc(t, key) && SortedDesc(u, key)
    requires forall k :: WithKey(t, key, k) == WithKey(u, key, k)
    ensures t == u
    decreases |t|
  {
    if |t| == 0 {
      if |u| > 0 {
        WithKeyEmpty(u, key);
      }
    } else if |u| == 0 {
      WithKeyEmpty(t, key);
    } else {
      SameHead(t, u, key);
      forall k ensures WithKey(t[1..], key, k) == WithKey(u[1..], key, k) {
        TailsAgree(t, u, key, k);
      }
      SortedTail(t, key);
      SortedTail(u, key);
      SortedUnique(t[1..], u[1..], key);
      assert t == [t[0]] + t[1..];
      assert u == [u[0]] + u[1..];
    }
  }

  /** Any stable descending ordering of `s` is the one `SortDesc` computes, so
      the comparator sort's result is exactly `SortDesc(s, key)`. */
  lemma StableDescendingIsSortDesc<T>(s: seq<T>, t: seq<T>, key: T -> int)
    requires IsStableDescending(s, t, key)
    ensures t == SortDesc(s, key)
  {
    SortDescIsStableDescending(s, key);
    SortedUnique(t, SortDesc(s, key), key);
  }

  /** Sorting an already ranked list changes nothing: a second click on the
      sort button leaves the order as the first left it. */
  lemma SortDescIdempotent<T>(s: seq<T>, key: T -> int)
    ensures SortDesc(SortDesc(s, key), key) == SortDesc(s, key)
  {
    var t := SortDesc(s, key);
    SortDescSorted(s, key);
    StableDescendingIsSortDesc(t, t, key);
  }
}
