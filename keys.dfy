/**
 * The Id column of an in-memory collection, and the operations every entity
 * service performs on it: `findIndex` by Id, `Math.max(...ids, 0) + 1` for the
 * next Id, and `splice(index, 1)`.
 */
module Keys {

  /** `s.map(key)`: the column of keys, in stored order. */
  function Column<T>(s: seq<T>, key: T -> int): (c: seq<int>)
    ensures |c| == |s|
    ensures forall i :: 0 <= i < |s| ==> c[i] == key(s[i])
  {
    seq(|s|, i requires 0 <= i < |s| => key(s[i]))
  }

  /** `s.splice(i, 1)` on a copy: the element at index `i` removed. */
  function RemoveAt<T>(s: seq<T>, i: nat): (r: seq<T>)
    requires i < |s|
    ensures |r| == |s| - 1
    ensures forall k :: 0 <= k < i ==> r[k] == s[k]
    ensures forall k :: i <= k < |r| ==> r[k] == s[k + 1]
  {
    s[..i] + s[i + 1..]
  }

  /**
   * `ids.findIndex(x => x === id)`: the index of the FIRST occurrence of `id`,
   * or -1 when there is none.
   */
  function IndexOf(ids: seq<int>, id: int): (r: int)
    ensures -1 <= r < |ids|
    ensures r == -1 <==> id !in ids
    ensures 0 <= r ==> ids[r] == id && id !in ids[..r]
  {
    if |ids| == 0 then -1
    else if ids[0] == id then 0
    else
      var k := IndexOf(ids[1..], id);
      assert ids[1..][..if k < 0 then 0 else k] == ids[1..if k < 0 then 1 else k + 1];
      if k == -1 then -1 else k + 1
  }

  /** `Math.max(...ids, 0)`: the largest Id, or 0 when there is none larger. */
  function MaxOrZero(ids: seq<int>): (m: int)
    ensures 0 <= m
    ensures forall i :: 0 <= i < |ids| ==> ids[i] <= m
    ensures m == 0 || m in ids
  {
    if |ids| == 0 then 0
    else
      var rest := MaxOrZero(ids[1..]);
      if ids[0] > rest then ids[0] else rest
  }

  /** `getNextId()`: one more than the largest Id (1 on an empty store). */
  function NextId(ids: seq<int>): (n: int)
    ensures 1 <= n
    ensures forall i :: 0 <= i < |ids| ==> ids[i] < n
    ensures n == 1 || n - 1 in ids
  {
    MaxOrZero(ids) + 1
  }

  /** No Id occurs twice. The source does not enforce this. */
  predicate Unique(ids: seq<int>) {
    forall i, j :: 0 <= i < j < |ids| ==> ids[i] != ids[j]
  }

  lemma ColumnAppend<T>(s: seq<T>, x: T, key: T -> int)
    ensures Column(s + [x], key) == Column(s, key) + [key(x)]
  {
  }

  lemma ColumnRemoveAt<T>(s: seq<T>, i: nat, key: T -> int)
    requires i < |s|
    ensures Column(RemoveAt(s, i), key) == RemoveAt(Column(s, key), i)
  {
  }

  lemma ColumnUpdate<T>(s: seq<T>, i: nat, x: T, key: T -> int)
    requires i < |s|
    ensures Column(s[i := x], key) == Column(s, key)[i := key(x)]
  {
  }

  /** Any Id larger than all stored Ids, appended, keeps the column free of duplicates. */
  lemma UniqueAppendFresh(ids: seq<int>, n: int)
    requires Unique(ids)
    requires forall i :: 0 <= i < |ids| ==> ids[i] < n
    ensures Unique(ids + [n])
  {
  }

  /** Removing an entry never introduces a duplicate. */
  lemma UniqueRemoveAt(ids: seq<int>, i: nat)
    requires Unique(ids) && i < |ids|
    ensures Unique(RemoveAt(ids, i))
  {
    var r := RemoveAt(ids, i);
    forall a, b | 0 <= a < b < |r| ensures r[a] != r[b] {
      var a' := if a < i then a else a + 1;
      var b' := if b < i then b else b + 1;
      assert r[a] == ids[a'] && r[b] == ids[b'] && a' < b';
    }
  }

  /** Removing the entry at the index of `id` leaves no entry with that Id, when Ids are unique. */
  lemma RemovedIdGone(ids: seq<int>, id: int)
    requires Unique(ids) && id in ids
    ensures id !in RemoveAt(ids, IndexOf(ids, id))
  {
    var k := IndexOf(ids, id);
    var r := RemoveAt(ids, k);
    forall a | 0 <= a < |r| ensures r[a] != id {
      if a < k { assert r[a] == ids[a]; } else { assert r[a] == ids[a + 1]; }
    }
  }

  /**
   * Ids are not fresh with respect to history: when the record holding the
   * largest Id is removed, the next Id is at most that Id, so a later create
   * can hand out an Id that was used before.
   */
  lemma {:induction false} NextIdAfterRemovingMax(ids: seq<int>, i: nat)
    requires Unique(ids) && i < |ids|
    requires ids[i] == MaxOrZero(ids) && 0 < ids[i]
    ensures NextId(RemoveAt(ids, i)) <= ids[i]
    ensures (ids[i] - 1 in ids || ids[i] == 1) ==> NextId(RemoveAt(ids, i)) == ids[i]
  {
    var r := RemoveAt(ids, i);
    var m := MaxOrZero(r);
    if m != 0 {
      var a :| 0 <= a < |r| && r[a] == m;
      var a' := if a < i then a else a + 1;
      assert ids[a'] == m && a' != i;
    }
    if ids[i] - 1 in ids && ids[i] != 1 {
      var j :| 0 <= j < |ids| && ids[j] == ids[i] - 1;
      var j' := if j < i then j else j - 1;
      assert r[j'] == ids[j];
    }
  }
}
