/**
 * The `prev => ...` list updaters the three pages apply to their local
 * copy of a service's records after the service call succeeds.
 */
module ListUpdates {
  import Keys
  import Lists

  /** `prev.map(y => y.Id === key ? x : y)`: EVERY entry carrying the Id is replaced. */
  function ReplaceById<T>(s: seq<T>, id: T -> int, key: int, x: T): (r: seq<T>)
    ensures |r| == |s|
    ensures forall i :: 0 <= i < |s| && id(s[i]) == key ==> r[i] == x
    ensures forall i :: 0 <= i < |s| && id(s[i]) != key ==> r[i] == s[i]
  {
    seq(|s|, i requires 0 <= i < |s| => if id(s[i]) == key then x else s[i])
  }

  function KeyIsNot<T>(id: T -> int, key: int): T -> bool {
    (y: T) => id(y) != key
  }

  /** `prev.filter(y => y.Id !== key)`: EVERY entry carrying the Id is dropped. */
  function RemoveById<T>(s: seq<T>, id: T -> int, key: int): seq<T> {
    Lists.Filter(s, KeyIsNot(id, key))
  }

  /**
   * Removal keeps the order of what stays, keeps exactly the entries with
   * another Id, and leaves no entry carrying the removed Id.
   */
  lemma RemoveByIdSpec<T>(s: seq<T>, id: T -> int, key: int)
    ensures Lists.IsSubseq(RemoveById(s, id, key), s)
    ensures forall y :: y in RemoveById(s, id, key) <==> y in s && id(y) != key
    ensures key !in Keys.Column(RemoveById(s, id, key), id)
  {
    Lists.FilterIsSubseq(s, KeyIsNot(id, key));
  }

  /**
   * Page and service agree when Ids are unique: replacing by Id on the page
   * is the service's update of the single index holding that Id, and an Id
   * the page does not hold leaves the page as it is.
   */
  lemma ReplaceByIdIsUpdate<T>(s: seq<T>, id: T -> int, key: int, x: T)
    requires Keys.Unique(Keys.Column(s, id))
    ensures key !in Keys.Column(s, id) ==> ReplaceById(s, id, key, x) == s
    ensures key in Keys.Column(s, id) ==>
      ReplaceById(s, id, key, x) == s[Keys.IndexOf(Keys.Column(s, id), key) := x]
  {
    var ids := Keys.Column(s, id);
    if key in ids {
      var k := Keys.IndexOf(ids, key);
      forall i | 0 <= i < |s| && i != k ensures id(s[i]) != key {
        assert ids[i] != ids[k];
      }
    } else {
      forall i | 0 <= i < |s| ensures id(s[i]) != key {
        assert ids[i] == id(s[i]);
      }
    }
  }

  /** When only index k carries the Id, removing by Id removes index k. */
  lemma {:induction false} RemoveSoleEntry<T>(s: seq<T>, id: T -> int, key: int, k: nat)
    requires k < |s| && id(s[k]) == key
    requires forall i :: 0 <= i < |s| && i != k ==> id(s[i]) != key
    ensures RemoveById(s, id, key) == Keys.RemoveAt(s, k)
  {
    var p := KeyIsNot(id, key);
    var n := |s| - 1;
    var init := s[..n];
    assert RemoveById(s, id, key) == if p(s[n]) then RemoveById(init, id, key) + [s[n]] else RemoveById(init, id, key) by {
      assert s == init + [s[n]];
      Lists.FilterAppend(init, s[n], p);
    }
    if k == n {
      assert RemoveById(init, id, key) == init by {
        Lists.FilterAll(init, p);
      }
    } else {
      assert p(s[n]);
      RemoveSoleEntry(init, id, key, k);
      var r := Keys.RemoveAt(s, k);
      var t := Keys.RemoveAt(init, k) + [s[n]];
      assert |r| == |t|;
      forall i | 0 <= i < |r| ensures r[i] == t[i] {
        if i < |r| - 1 {
          assert t[i] == Keys.RemoveAt(init, k)[i];
        }
      }
      assert r == t;
    }
  }

  /**
   * With unique Ids, removing by Id on the page is the service's
   * `splice(index, 1)` at the index holding that Id, and an Id the page does
   * not hold leaves the page as it is.
   */
  lemma RemoveByIdIsSplice<T>(s: seq<T>, id: T -> int, key: int)
    requires Keys.Unique(Keys.Column(s, id))
    ensures key !in Keys.Column(s, id) ==> RemoveById(s, id, key) == s
    ensures key in Keys.Column(s, id) ==>
      RemoveById(s, id, key) == Keys.RemoveAt(s, Keys.IndexOf(Keys.Column(s, id), key))
  {
    var ids := Keys.Column(s, id);
    var p := KeyIsNot(id, key);
    if key !in ids {
      forall i | 0 <= i < |s| ensures p(s[i]) {
        assert ids[i] == id(s[i]);
      }
      Lists.FilterAll(s, p);
    } else {
      var k := Keys.IndexOf(ids, key);
      forall i | 0 <= i < |s| && i != k ensures id(s[i]) != key {
        assert ids[i] != ids[k];
      }
      RemoveSoleEntry(s, id, key, k);
    }
  }

  lemma MultisetUpdate<T>(s: seq<T>, i: nat, x: T)
    requires i < |s|
    ensures multiset(s[i := x]) == multiset(s) - multiset{s[i]} + multiset{x}
  {
    assert s == s[..i] + [s[i]] + s[i + 1..];
    assert s[i := x] == s[..i] + [x] + s[i + 1..];
  }

  lemma MultisetRemoveAt<T>(s: seq<T>, i: nat)
    requires i < |s|
    ensures multiset(Keys.RemoveAt(s, i)) == multiset(s) - multiset{s[i]}
  {
    assert s == s[..i] + [s[i]] + s[i + 1..];
  }

  /**
   * The store's record with a given Id sits, in a permutation of the store
   * with unique Ids, at the page index the page's own search finds.
   */
  lemma SameRecordInMirror<T>(page: seq<T>, store: seq<T>, id: T -> int, key: int)
    requires multiset(page) == multiset(store)
    requires Keys.Unique(Keys.Column(page, id))
    requires key in Keys.Column(store, id)
    ensures key in Keys.Column(page, id)
    ensures page[Keys.IndexOf(Keys.Column(page, id), key)] == store[Keys.IndexOf(Keys.Column(store, id), key)]
  {
    var pc := Keys.Column(page, id);
    var sc := Keys.Column(store, id);
    var k := Keys.IndexOf(sc, key);
    var rec := store[k];
    assert id(rec) == key;
    assert rec in page by {
      assert rec in multiset(store);
    }
    var j :| 0 <= j < |page| && page[j] == rec;
    assert pc[j] == key;
    var pk := Keys.IndexOf(pc, key);
    assert pk == j by {
      assert pc[pk] == pc[j];
    }
  }

  /**
   * Page and store stay the same collection through an edit while Ids are
   * unique: if the page's list was a permutation of the store's, it still is
   * after the store updates one index and the page replaces by Id.
   */
  lemma EditKeepsMirror<T>(page: seq<T>, store: seq<T>, id: T -> int, key: int, x: T)
    requires multiset(page) == multiset(store)
    requires Keys.Unique(Keys.Column(page, id))
    requires key in Keys.Column(store, id)
    ensures multiset(ReplaceById(page, id, key, x))
      == multiset(store[Keys.IndexOf(Keys.Column(store, id), key) := x])
  {
    SameRecordInMirror(page, store, id, key);
    ReplaceByIdIsUpdate(page, id, key, x);
    MultisetUpdate(page, Keys.IndexOf(Keys.Column(page, id), key), x);
    MultisetUpdate(store, Keys.IndexOf(Keys.Column(store, id), key), x);
  }

  /** The same for a delete: the page filters by Id, the store splices one index. */
  lemma DeleteKeepsMirror<T>(page: seq<T>, store: seq<T>, id: T -> int, key: int)
    requires multiset(page) == multiset(store)
    requires Keys.Unique(Keys.Column(page, id))
    requires key in Keys.Column(store, id)
    ensures multiset(RemoveById(page, id, key))
      == multiset(Keys.RemoveAt(store, Keys.IndexOf(Keys.Column(store, id), key)))
  {
    SameRecordInMirror(page, store, id, key);
    RemoveByIdIsSplice(page, id, key);
    MultisetRemoveAt(page, Keys.IndexOf(Keys.Column(page, id), key));
    MultisetRemoveAt(store, Keys.IndexOf(Keys.Column(store, id), key));
  }
}
