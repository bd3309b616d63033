/**
 * `arr.sort((a, b) => key(b) - key(a))`: a STABLE sort, newest (largest key)
 * first. ECMAScript requires Array.prototype.sort to be stable, so its result
 * is fully determined; it is given here as insertion sort, which is stable.
 */
module Ordering {
  import Lists

  /** Non-increasing by `key`. */
  predicate SortedDesc<T>(s: seq<T>, key: T -> int) {
    forall i, j :: 0 <= i < j < |s| ==> key(s[i]) >= key(s[j])
  }

  /**
   * Insert `x` into `s` after every element whose key is at least key(x):
   * an element that comes later in the input stays after equal keys.
   */
  function Insert<T>(s: seq<T>, x: T, key: T -> int): seq<T> {
    if |s| == 0 then [x]
    else if key(s[0]) < key(x) then [x] + s
    else [s[0]] + Insert(s[1..], x, key)
  }

  /** The stable descending sort of `s`, inserting the elements from left to right. */
  function SortDesc<T>(s: seq<T>, key: T -> int): seq<T> {
    if |s| == 0 then []
    else Insert(SortDesc(s[..|s| - 1], key), s[|s| - 1], key)
  }

  lemma {:induction false} InsertPermutes<T>(s: seq<T>, x: T, key: T -> int)
    ensures multiset(Insert(s, x, key)) == multiset(s) + multiset{x}
    ensures |Insert(s, x, key)| == |s| + 1
  {
    if |s| > 0 && key(s[0]) >= key(x) {
      InsertPermutes(s[1..], x, key);
      assert s == [s[0]] + s[1..];
    }
  }

  lemma {:induction false} InsertSorted<T>(s: seq<T>, x: T, key: T -> int)
    requires SortedDesc(s, key)
    ensures SortedDesc(Insert(s, x, key), key)
  {
    if |s| > 0 && key(s[0]) >= key(x) {
      InsertSorted(s[1..], x, key);
      InsertPermutes(s[1..], x, key);
      var r := Insert(s[1..], x, key);
      forall k | 0 <= k < |r| ensures key(s[0]) >= key(r[k]) {
        assert r[k] in multiset(s[1..]) + multiset{x};
        if r[k] in multiset(s[1..]) {
          var m :| 0 <= m < |s[1..]| && s[1..][m] == r[k];
          assert s[m + 1] == r[k];
        }
      }
    }
  }

  /** The sort is a permutation of its input: nothing added, nothing lost. */
  lemma {:induction false} SortPermutes<T>(s: seq<T>, key: T -> int)
    ensures multiset(SortDesc(s, key)) == multiset(s)
    ensures |SortDesc(s, key)| == |s|
  {
    if |s| > 0 {
      var init := s[..|s| - 1];
      SortPermutes(init, key);
      InsertPermutes(SortDesc(init, key), s[|s| - 1], key);
      assert s == init + [s[|s| - 1]];
    }
  }

  /** The sort orders newest first. */
  lemma {:induction false} SortSorted<T>(s: seq<T>, key: T -> int)
    ensures SortedDesc(SortDesc(s, key), key)
  {
    if |s| > 0 {
      SortSorted(s[..|s| - 1], key);
      InsertSorted(SortDesc(s[..|s| - 1], key), s[|s| - 1], key);
    }
  }

  /** The test "has key k", as a named function so every use is the same term. */
  function HasKey<T>(key: T -> int, k: int): T -> bool {
    e => key(e) == k
  }

  /**
   * Inserting into a sorted list places `x` after every element with its own
   * key: among the elements with any one key, `x` comes last, and the others
   * keep their order.
   */
  lemma {:induction false} InsertKeepsTies<T>(s: seq<T>, x: T, key: T -> int, k: int)
    requires SortedDesc(s, key)
    ensures Lists.Filter(Insert(s, x, key), HasKey(key, k))
      == if key(x) == k then Lists.Filter(s, HasKey(key, k)) + [x] else Lists.Filter(s, HasKey(key, k))
  {
    var p := HasKey(key, k);
    if |s| == 0 {
      Lists.FilterPrepend(x, [], p);
    } else if key(s[0]) < key(x) {
      Lists.FilterPrepend(x, s, p);
      if key(x) == k {
        forall i | 0 <= i < |s| ensures !p(s[i]) {
          assert key(s[i]) <= key(s[0]);
        }
        Lists.FilterNone(s, p);
      }
    } else {
      InsertKeepsTies(s[1..], x, key, k);
      Lists.FilterPrepend(s[0], Insert(s[1..], x, key), p);
      Lists.FilterPrepend(s[0], s[1..], p);
      assert s == [s[0]] + s[1..];
    }
  }

  /**
   * The sort is stable: for every key, the elements with that key appear in
   * the result in the order they had in the input.
   */
  lemma {:induction false} SortStable<T>(s: seq<T>, key: T -> int, k: int)
    ensures Lists.Filter(SortDesc(s, key), HasKey(key, k)) == Lists.Filter(s, HasKey(key, k))
  {
    if |s| > 0 {
      var p := HasKey(key, k);
      var init := s[..|s| - 1];
      var x := s[|s| - 1];
      var sortedInit := SortDesc(init, key);
      assert SortDesc(s, key) == Insert(sortedInit, x, key);
      SortSorted(init, key);
      InsertKeepsTies(sortedInit, x, key, k);
      SortStable(init, key, k);
      assert Lists.Filter(s, p) == if p(x) then Lists.Filter(init, p) + [x] else Lists.Filter(init, p);
    }
  }

  /**
   * Inserting into a sorted list at position j: everything before j has a key
   * at least key(x), everything from j on has a smaller key.
   */
  lemma {:induction false} InsertAt<T>(s: seq<T>, x: T, key: T -> int, j: nat)
    requires j <= |s|
    requires forall k :: 0 <= k < j ==> key(s[k]) >= key(x)
    requires forall k :: j <= k < |s| ==> key(s[k]) < key(x)
    ensures Insert(s, x, key) == s[..j] + [x] + s[j..]
  {
    if j > 0 {
      InsertAt(s[1..], x, key, j - 1);
      assert s[1..][..j - 1] == s[1..j];
      assert s[..j] == [s[0]] + s[1..j];
    }
  }

  /**
   * The outcome of one insertion-sort step, stated element by element: `r` is
   * `sorted` with `x` placed at j, where j is past every key at least key(x).
   */
  lemma ShiftedIsInsert<T>(sorted: seq<T>, x: T, key: T -> int, j: nat, r: seq<T>)
    requires SortedDesc(sorted, key)
    requires j <= |sorted| && |r| == |sorted| + 1
    requires forall k :: 0 <= k < j ==> r[k] == sorted[k]
    requires r[j] == x
    requires forall k :: j < k < |r| ==> r[k] == sorted[k - 1]
    requires forall k :: j <= k < |sorted| ==> key(sorted[k]) < key(x)
    requires j == 0 || key(sorted[j - 1]) >= key(x)
    ensures r == Insert(sorted, x, key)
  {
    forall k | 0 <= k < j
      ensures key(sorted[k]) >= key(x)
    {
      assert key(sorted[k]) >= key(sorted[j - 1]);
    }
    InsertAt(sorted, x, key, j);
    PlacedAt(sorted, x, j, r);
  }

  /** `r`, given element by element, is `s` with `x` placed at position j. */
  lemma PlacedAt<T>(s: seq<T>, x: T, j: nat, r: seq<T>)
    requires j <= |s| && |r| == |s| + 1
    requires forall k :: 0 <= k < j ==> r[k] == s[k]
    requires r[j] == x
    requires forall k :: j < k < |r| ==> r[k] == s[k - 1]
    ensures r == s[..j] + [x] + s[j..]
  {
    var t := s[..j] + [x] + s[j..];
    forall k | 0 <= k < |r|
      ensures r[k] == t[k]
    {
      if k < j {
        assert t[k] == s[..j][k];
      } else if j < k {
        assert t[k] == s[j..][k - j - 1];
      }
    }
  }

  /** What a prefix leaves out is exactly the rest of the list. */
  lemma PrefixRest<T>(s: seq<T>, n: nat)
    requires n <= |s|
    ensures multiset(s[..n]) <= multiset(s)
    ensures multiset(s) - multiset(s[..n]) == multiset(s[n..])
  {
    assert s == s[..n] + s[n..];
  }

  /**
   * A prefix of a sorted list dominates the rest: nothing left out of the
   * first n has a larger key than anything in them.
   */
  lemma PrefixDominates<T>(s: seq<T>, key: T -> int, n: nat)
    requires SortedDesc(s, key) && n <= |s|
    ensures SortedDesc(s[..n], key)
    ensures multiset(s[..n]) <= multiset(s)
    ensures forall e, r :: e in multiset(s) - multiset(s[..n]) && r in s[..n] ==> key(e) <= key(r)
  {
    PrefixRest(s, n);
    forall e, r | e in s[n..] && r in s[..n]
      ensures key(e) <= key(r)
    {
      var p :| 0 <= p < |s[n..]| && s[n..][p] == e;
      var q :| 0 <= q < n && s[..n][q] == r;
      assert s[q] == r && s[n + p] == e;
    }
  }
}
