/**
 * BudgetService: the in-memory repository of category budgets. The simulated network
 * delay is left out; each operation returns its value or an error at once.
 */
module BudgetApi {
  import opened Wrappers
  import opened Entities
  import Keys
  import Ordering

  /** `new Date(b.createdAt)` as the sort key; `instant` stands for JavaScript's date parsing. */
  function ByCreatedAt(instant: string -> int): Budget -> int {
    (b: Budget) => instant(b.createdAt)
  }

  class BudgetService {
    /** `this.budgets`, in insertion order. */
    var budgets: seq<Budget>

    /** The store starts as a copy of the fixture list. */
    constructor (fixture: seq<Budget>)
      ensures budgets == fixture
    {
      budgets := fixture;
    }

    /** One more than the largest stored Id (1 on an empty store). */
    function GetNextId(): (n: int)
      reads this
      ensures forall i :: 0 <= i < |budgets| ==> budgets[i].Id < n
      ensures n == 1 || exists i :: 0 <= i < |budgets| && budgets[i].Id == n - 1
    {
      var n := Keys.NextId(BudgetIds(budgets));
      assert n != 1 ==> BudgetIds(budgets)[Keys.IndexOf(BudgetIds(budgets), n - 1)] == n - 1;
      n
    }

    /** A copy of every stored budget, newest `createdAt` first; the store keeps its order. */
    method GetAll(instant: string -> int) returns (r: seq<Budget>)
      ensures r == Ordering.SortDesc(budgets, ByCreatedAt(instant))
      ensures multiset(r) == multiset(budgets)
      ensures Ordering.SortedDesc(r, ByCreatedAt(instant))
    {
      r := Ordering.SortDesc(budgets, ByCreatedAt(instant));
      Ordering.SortPermutes(budgets, ByCreatedAt(instant));
      Ordering.SortSorted(budgets, ByCreatedAt(instant));
    }

    /** The first budget with this Id, or "Budget not found". */
    method GetById(id: int) returns (r: Result<Budget>)
      ensures r.Err? <==> id !in BudgetIds(budgets)
      ensures r.Err? ==> r.message == "Budget not found"
      ensures r.Ok? ==> (r.value.Id == id && r.value == budgets[Keys.IndexOf(BudgetIds(budgets), id)])
    {
      var index := Keys.IndexOf(BudgetIds(budgets), id);
      if index == -1 {
        return Err("Budget not found");
      }
      return Ok(budgets[index]);
    }

    /**
     * Appends `{ ...data, Id: getNextId(), createdAt: stamp }`: any Id or
     * createdAt in the input is overridden, every other field is kept.
     */
    method Create(data: BudgetPatch, stamp: string) returns (r: Budget)
      modifies this
      ensures r == OverlayBudget(BlankBudget, data).(Id := old(GetNextId()), createdAt := stamp)
      ensures budgets == old(budgets) + [r]
      ensures forall i :: 0 <= i < |old(budgets)| ==> old(budgets)[i].Id < r.Id
      ensures Keys.Unique(old(BudgetIds(budgets))) ==> Keys.Unique(BudgetIds(budgets))
    {
      r := OverlayBudget(BlankBudget, data).(Id := GetNextId(), createdAt := stamp);
      Keys.ColumnAppend(budgets, r, BudgetId);
      if Keys.Unique(BudgetIds(budgets)) {
        Keys.UniqueAppendFresh(BudgetIds(budgets), r.Id);
      }
      budgets := budgets + [r];
    }

    /**
     * Overlays the patch on the first budget with this Id. A patch that
     * carries an Id overwrites the stored Id.
     */
    method Update(id: int, patch: BudgetPatch) returns (r: Result<Budget>)
      modifies this
      ensures id !in old(BudgetIds(budgets)) ==> r == Err("Budget not found") && budgets == old(budgets)
      ensures id in old(BudgetIds(budgets)) ==>
        var k := Keys.IndexOf(old(BudgetIds(budgets)), id);
        r == Ok(OverlayBudget(old(budgets)[k], patch)) && budgets == old(budgets)[k := r.value]
      ensures Keys.Unique(old(BudgetIds(budgets)))
        && (patch.Id.None? || patch.Id.value == id || patch.Id.value !in old(BudgetIds(budgets)))
        ==> Keys.Unique(BudgetIds(budgets))
    {
      var index := Keys.IndexOf(BudgetIds(budgets), id);
      if index == -1 {
        return Err("Budget not found");
      }
      var updated := OverlayBudget(budgets[index], patch);
      Keys.ColumnUpdate(budgets, index, updated, BudgetId);
      budgets := budgets[index := updated];
      return Ok(updated);
    }

    /** Removes the first budget with this Id and answers true, or "Budget not found". */
    method Delete(id: int) returns (r: Result<bool>)
      modifies this
      ensures id !in old(BudgetIds(budgets)) ==> r == Err("Budget not found") && budgets == old(budgets)
      ensures id in old(BudgetIds(budgets)) ==>
        r == Ok(true) && budgets == Keys.RemoveAt(old(budgets), Keys.IndexOf(old(BudgetIds(budgets)), id))
      ensures Keys.Unique(old(BudgetIds(budgets))) ==>
        Keys.Unique(BudgetIds(budgets)) && id !in BudgetIds(budgets)
    {
      var index := Keys.IndexOf(BudgetIds(budgets), id);
      if index == -1 {
        return Err("Budget not found");
      }
      Keys.ColumnRemoveAt(budgets, index, BudgetId);
      if Keys.Unique(BudgetIds(budgets)) {
        Keys.UniqueRemoveAt(BudgetIds(budgets), index);
        Keys.RemovedIdGone(BudgetIds(budgets), id);
      }
      budgets := Keys.RemoveAt(budgets, index);
      return Ok(true);
    }
  }

  /**
   * Deleting removes one budget and keeps the others in order: with Ids
   * 4, 7, 9 stored, deleting 7 leaves 4, 9.
   */
  method DeleteKeepsOrderExample(b: Budget) returns (ids: seq<int>)
    ensures ids == [4, 9]
  {
    var service := new BudgetService([b.(Id := 4), b.(Id := 7), b.(Id := 9)]);
    ghost var before := BudgetIds(service.budgets);
    assert before[0] == 4 && before[1] == 7 && before[2] == 9;
    assert Keys.IndexOf(before, 7) == 1;
    var deleted := service.Delete(7);
    ids := BudgetIds(service.budgets);
    assert ids[0] == 4 && ids[1] == 9;
  }
}
