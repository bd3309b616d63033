/**
 * ExpenseService: the in-memory expense repository. The simulated network
 * delay is left out; each operation returns its value or an error at once.
 */
module ExpenseApi {
  import opened Wrappers
  import opened Entities
  import Keys
  import Ordering

  /** `new Date(e.date)` as the sort key; `instant` stands for JavaScript's date parsing. */
  function ByDate(instant: string -> int): Expense -> int {
    (e: Expense) => instant(e.date)
  }

  class ExpenseService {
    /** `this.expenses`, in insertion order. */
    var expenses: seq<Expense>

    /** The store starts as a copy of the fixture list. */
    constructor (fixture: seq<Expense>)
      ensures expenses == fixture
    {
      expenses := fixture;
    }

    /** One more than the largest stored Id (1 on an empty store). */
    function GetNextId(): (n: int)
      reads this
      ensures forall i :: 0 <= i < |expenses| ==> expenses[i].Id < n
      ensures n == 1 || exists i :: 0 <= i < |expenses| && expenses[i].Id == n - 1
    {
      var n := Keys.NextId(ExpenseIds(expenses));
      assert n != 1 ==> ExpenseIds(expenses)[Keys.IndexOf(ExpenseIds(expenses), n - 1)] == n - 1;
      n
    }

    /** A copy of every stored expense, newest `date` first; the store keeps its order. */
    method GetAll(instant: string -> int) returns (r: seq<Expense>)
      ensures r == Ordering.SortDesc(expenses, ByDate(instant))
      ensures multiset(r) == multiset(expenses)
      ensures Ordering.SortedDesc(r, ByDate(instant))
    {
      r := Ordering.SortDesc(expenses, ByDate(instant));
      Ordering.SortPermutes(expenses, ByDate(instant));
      Ordering.SortSorted(expenses, ByDate(instant));
    }

    /** The first expense with this Id, or "Expense not found". */
    method GetById(id: int) returns (r: Result<Expense>)
      ensures r.Err? <==> id !in ExpenseIds(expenses)
      ensures r.Err? ==> r.message == "Expense not found"
      ensures r.Ok? ==> (r.value.Id == id && r.value == expenses[Keys.IndexOf(ExpenseIds(expenses), id)])
    {
      var index := Keys.IndexOf(ExpenseIds(expenses), id);
      if index == -1 {
        return Err("Expense not found");
      }
      return Ok(expenses[index]);
    }

    /**
     * Appends `{ ...data, Id: getNextId(), createdAt: stamp }`: any Id or
     * createdAt in the input is overridden, every other field is kept.
     */
    method Create(data: ExpensePatch, stamp: string) returns (r: Expense)
      modifies this
      ensures r == OverlayExpense(BlankExpense, data).(Id := old(GetNextId()), createdAt := stamp)
      ensures expenses == old(expenses) + [r]
      ensures forall i :: 0 <= i < |old(expenses)| ==> old(expenses)[i].Id < r.Id
      ensures Keys.Unique(old(ExpenseIds(expenses))) ==> Keys.Unique(ExpenseIds(expenses))
    {
      r := OverlayExpense(BlankExpense, data).(Id := GetNextId(), createdAt := stamp);
      Keys.ColumnAppend(expenses, r, ExpenseId);
      if Keys.Unique(ExpenseIds(expenses)) {
        Keys.UniqueAppendFresh(ExpenseIds(expenses), r.Id);
      }
      expenses := expenses + [r];
    }

    /**
     * Overlays the patch on the first expense with this Id. A patch that
     * carries an Id overwrites the stored Id.
     */
    method Update(id: int, patch: ExpensePatch) returns (r: Result<Expense>)
      modifies this
      ensures id !in old(ExpenseIds(expenses)) ==> r == Err("Expense not found") && expenses == old(expenses)
      ensures id in old(ExpenseIds(expenses)) ==>
        var k := Keys.IndexOf(old(ExpenseIds(expenses)), id);
        r == Ok(OverlayExpense(old(expenses)[k], patch)) && expenses == old(expenses)[k := r.value]
      ensures Keys.Unique(old(ExpenseIds(expenses)))
        && (patch.Id.None? || patch.Id.value == id || patch.Id.value !in old(ExpenseIds(expenses)))
        ==> Keys.Unique(ExpenseIds(expenses))
    {
      var index := Keys.IndexOf(ExpenseIds(expenses), id);
      if index == -1 {
        return Err("Expense not found");
      }
      var updated := OverlayExpense(expenses[index], patch);
      Keys.ColumnUpdate(expenses, index, updated, ExpenseId);
      expenses := expenses[index := updated];
      return Ok(updated);
    }

    /** Removes the first expense with this Id and answers true, or "Expense not found". */
    method Delete(id: int) returns (r: Result<bool>)
      modifies this
      ensures id !in old(ExpenseIds(expenses)) ==> r == Err("Expense not found") && expenses == old(expenses)
      ensures id in old(ExpenseIds(expenses)) ==>
        r == Ok(true) && expenses == Keys.RemoveAt(old(expenses), Keys.IndexOf(old(ExpenseIds(expenses)), id))
      ensures Keys.Unique(old(ExpenseIds(expenses))) ==>
        Keys.Unique(ExpenseIds(expenses)) && id !in ExpenseIds(expenses)
    {
      var index := Keys.IndexOf(ExpenseIds(expenses), id);
      if index == -1 {
        return Err("Expense not found");
      }
      Keys.ColumnRemoveAt(expenses, index, ExpenseId);
      if Keys.Unique(ExpenseIds(expenses)) {
        Keys.UniqueRemoveAt(ExpenseIds(expenses), index);
        Keys.RemovedIdGone(ExpenseIds(expenses), id);
      }
      expenses := Keys.RemoveAt(expenses, index);
      return Ok(true);
    }
  }

  /**
   * Ids are reused: with Ids 1, 2, 3 stored, deleting 3 and creating a new
   * expense hands out 3 again.
   */
  method IdReuseExample(e: Expense, data: ExpensePatch, stamp: string) returns (reused: int)
    ensures reused == 3
  {
    var service := new ExpenseService([e.(Id := 1), e.(Id := 2), e.(Id := 3)]);
    ghost var before := ExpenseIds(service.expenses);
    assert before == [1, 2, 3];
    assert Keys.IndexOf(before, 3) == 2;
    var deleted := service.Delete(3);
    assert ExpenseIds(service.expenses) == [1, 2];
    assert Keys.MaxOrZero([1, 2]) == 2;
    var created := service.Create(data, stamp);
    reused := created.Id;
  }

  /**
   * A patch that carries an Id overwrites the stored Id, so two stored
   * expenses can end up sharing one Id.
   */
  method PatchIdExample(e: Expense) returns (ids: seq<int>)
    ensures ids == [2, 2] && !Keys.Unique(ids)
  {
    var service := new ExpenseService([e.(Id := 1), e.(Id := 2)]);
    var updated := service.Update(1, EmptyExpensePatch.(Id := Some(2)));
    ids := ExpenseIds(service.expenses);
    assert ids[0] == ids[1];
  }
}
