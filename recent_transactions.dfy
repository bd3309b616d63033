/**
 * RecentTransactions: `expenses.sort(newest first).slice(0, 5)`. The sort
 * runs on the array it is given, so the caller's list is reordered too.
 */
module RecentTransactionsView {
  import opened Entities
  import Ordering
  import ExpenseApi

  /** The number of rows the card shows. */
  const RecentCount := 5

  /**
   * Shifts the entries before position i that sort after `x` one place to the
   * right, leaving a gap at the returned position j.
   */
  method OpenGap(a: array<Expense>, i: int, x: Expense, key: Expense -> int) returns (j: int)
    requires 0 <= i < a.Length
    modifies a
    ensures 0 <= j <= i
    ensures forall k :: 0 <= k < j ==> a[k] == old(a[k])
    ensures forall k :: j < k <= i ==> a[k] == old(a[k - 1])
    ensures forall k :: i < k < a.Length ==> a[k] == old(a[k])
    ensures forall k :: j <= k < i ==> key(old(a[k])) < key(x)
    ensures j == 0 || key(old(a[j - 1])) >= key(x)
  {
    j := i;
    while j > 0 && key(a[j - 1]) < key(x)
      invariant 0 <= j <= i
      invariant forall k :: 0 <= k < j ==> a[k] == old(a[k])
      invariant forall k :: j < k <= i ==> a[k] == old(a[k - 1])
      invariant forall k :: i < k < a.Length ==> a[k] == old(a[k])
      invariant forall k :: j <= k < i ==> key(old(a[k])) < key(x)
    {
      a[j] := a[j - 1];
      j := j - 1;
    }
  }

  /**
   * One step of insertion sort: with a[..i] already newest first, moves a[i]
   * left past every element with a strictly older date.
   */
  method InsertNext(a: array<Expense>, i: int, key: Expense -> int)
    requires 0 <= i < a.Length
    requires Ordering.SortedDesc(a[..i], key)
    modifies a
    ensures a[..i + 1] == Ordering.Insert(old(a[..i]), old(a[i]), key)
    ensures a[i + 1..] == old(a[i + 1..])
  {
    ghost var sorted := a[..i];
    ghost var rest := a[i + 1..];
    var x := a[i];
    var j := OpenGap(a, i, x, key);
    a[j] := x;
    Ordering.ShiftedIsInsert(sorted, x, key, j, a[..i + 1]);
    assert a[i + 1..] == rest;
  }

  /**
   * Sorts `a` in place, newest date first, keeping the input order among
   * equal dates (ECMAScript's sort is stable).
   */
  method SortNewestFirst(a: array<Expense>, instant: string -> int)
    modifies a
    ensures a[..] == Ordering.SortDesc(old(a[..]), ExpenseApi.ByDate(instant))
  {
    var key := ExpenseApi.ByDate(instant);
    ghost var input := a[..];
    var i := 0;
    while i < a.Length
      invariant 0 <= i <= a.Length
      invariant a[..i] == Ordering.SortDesc(input[..i], key)
      invariant a[i..] == input[i..]
    {
      Ordering.SortSorted(input[..i], key);
      assert input[..i + 1][..i] == input[..i];
      InsertNext(a, i, key);
      i := i + 1;
    }
    assert a[..] == a[..a.Length];
    assert input == input[..a.Length];
  }

  /** The rows of the card: the (at most) five newest expenses, newest first. */
  function Recent(expenses: seq<Expense>, instant: string -> int): seq<Expense> {
    var sorted := Ordering.SortDesc(expenses, ExpenseApi.ByDate(instant));
    Ordering.SortPermutes(expenses, ExpenseApi.ByDate(instant));
    if |sorted| <= RecentCount then sorted else sorted[..RecentCount]
  }

  /** The component: sort the given array in place, then take the first five. */
  method RecentTransactions(a: array<Expense>, instant: string -> int) returns (rows: seq<Expense>)
    modifies a
    ensures a[..] == Ordering.SortDesc(old(a[..]), ExpenseApi.ByDate(instant))
    ensures rows == Recent(old(a[..]), instant)
  {
    SortNewestFirst(a, instant);
    if a.Length <= RecentCount {
      rows := a[..];
    } else {
      rows := a[..RecentCount];
    }
  }

  /**
   * What the card shows: five rows, or all of them when there are fewer; newest
   * first; each from the list as often as it occurs there at most; and no
   * expense left off is newer than one shown.
   */
  lemma RecentSpec(expenses: seq<Expense>, instant: string -> int)
    ensures |Recent(expenses, instant)| == if |expenses| < RecentCount then |expenses| else RecentCount
    ensures Ordering.SortedDesc(Recent(expenses, instant), ExpenseApi.ByDate(instant))
    ensures multiset(Recent(expenses, instant)) <= multiset(expenses)
    ensures |expenses| <= RecentCount ==> multiset(Recent(expenses, instant)) == multiset(expenses)
    ensures forall e, r ::
      (e in multiset(expenses) - multiset(Recent(expenses, instant)) && r in Recent(expenses, instant))
      ==> instant(e.date) <= instant(r.date)
  {
    var key := ExpenseApi.ByDate(instant);
    var sorted := Ordering.SortDesc(expenses, key);
    Ordering.SortPermutes(expenses, key);
    Ordering.SortSorted(expenses, key);
    var n := if |sorted| <= RecentCount then |sorted| else RecentCount;
    assert Recent(expenses, instant) == sorted[..n];
    assert sorted[..|sorted|] == sorted;
    Ordering.PrefixDominates(sorted, key, n);
    forall e, r | e in multiset(expenses) - multiset(sorted[..n]) && r in sorted[..n]
      ensures instant(e.date) <= instant(r.date)
    {
      assert key(e) <= key(r);
    }
  }
}
