/**
 * The Budget page: its local copy of the budgets (and of the expenses, for
 * the progress figures), the add/edit/delete
 * handlers that call the service and then update that copy, and the
 * open/close/edit state of the modal. Loading and error display, toasts and
 * the confirmation dialog are not modelled; the dialog's answer is a parameter.
 */
module BudgetPage {
  import opened Wrappers
  import opened Entities
  import Keys
  import Lists
  import Ordering
  import ListUpdates
  import BudgetApi
  import ExpenseApi
  import DashboardStatsView

  class BudgetPageState {
    const service: BudgetApi.BudgetService
    const expenseService: ExpenseApi.ExpenseService
    /** `budgets` state: the list the page shows. */
    var budgets: seq<Budget>
    /** `expenses` state: what the progress bars are computed from. */
    var expenses: seq<Expense>
    var showModal: bool
    /** `editingBudget`: None is `null`. */
    var editing: Option<Budget>

    constructor (service: BudgetApi.BudgetService, expenseService: ExpenseApi.ExpenseService)
      ensures this.service == service && this.expenseService == expenseService
      ensures budgets == [] && expenses == [] && !showModal && editing == None
    {
      this.service := service;
      this.expenseService := expenseService;
      budgets := [];
      expenses := [];
      showModal := false;
      editing := None;
    }

    /** loadData: the budgets newest `createdAt` first, and the expenses newest `date` first. */
    method Load(instant: string -> int)
      modifies this
      ensures budgets == Ordering.SortDesc(service.budgets, BudgetApi.ByCreatedAt(instant))
      ensures multiset(budgets) == multiset(service.budgets)
      ensures expenses == Ordering.SortDesc(expenseService.expenses, ExpenseApi.ByDate(instant))
      ensures showModal == old(showModal) && editing == old(editing)
    {
      budgets := service.GetAll(instant);
      expenses := expenseService.GetAll(instant);
    }

    /** handleAddBudget: the created budget goes to the FRONT of the page's list. */
    method HandleAdd(data: BudgetPatch, stamp: string) returns (created: Budget)
      modifies this, service
      ensures service.budgets == old(service.budgets) + [created]
      ensures created == OverlayBudget(BlankBudget, data).(Id := old(service.GetNextId()), createdAt := stamp)
      ensures budgets == [created] + old(budgets)
      ensures Total() == old(Total()) + created.limit
      ensures showModal == old(showModal) && editing == old(editing) && expenses == old(expenses)
    {
      created := service.Create(data, stamp);
      Lists.SumOfPrepend(created, budgets, BudgetLimit);
      budgets := [created] + budgets;
    }

    /**
     * handleEditBudget: the service updates the editing target; on success
     * every page entry with that Id becomes the updated record and the target
     * is cleared. A failed update leaves the page as it was.
     */
    method HandleEdit(data: BudgetPatch) returns (r: Result<Budget>)
      requires editing.Some?
      modifies this, service
      ensures var id := old(editing).value.Id;
        var ids := old(BudgetIds(service.budgets));
        (id !in ids ==>
           r.Err? && service.budgets == old(service.budgets)
           && budgets == old(budgets) && editing == old(editing))
        && (id in ids ==>
              r == Ok(OverlayBudget(old(service.budgets)[Keys.IndexOf(ids, id)], data))
              && service.budgets == old(service.budgets)[Keys.IndexOf(ids, id) := r.value]
              && budgets == ListUpdates.ReplaceById(old(budgets), BudgetId, id, r.value)
              && editing == None)
      ensures showModal == old(showModal) && expenses == old(expenses)
    {
      var id := editing.value.Id;
      r := service.Update(id, data);
      if r.Ok? {
        budgets := ListUpdates.ReplaceById(budgets, BudgetId, id, r.value);
        editing := None;
      }
    }

    /**
     * handleDeleteBudget: nothing happens unless the user confirms; then the
     * page drops every entry with that Id only when the service delete succeeds.
     */
    method HandleDelete(id: int, confirmed: bool) returns (deleted: bool)
      modifies this, service
      ensures deleted <==> confirmed && id in old(BudgetIds(service.budgets))
      ensures !deleted ==> service.budgets == old(service.budgets) && budgets == old(budgets)
      ensures deleted ==>
        service.budgets == Keys.RemoveAt(old(service.budgets), Keys.IndexOf(old(BudgetIds(service.budgets)), id))
        && budgets == ListUpdates.RemoveById(old(budgets), BudgetId, id)
      ensures showModal == old(showModal) && editing == old(editing) && expenses == old(expenses)
    {
      deleted := false;
      if confirmed {
        var r := service.Delete(id);
        if r.Ok? {
          budgets := ListUpdates.RemoveById(budgets, BudgetId, id);
          deleted := true;
        }
      }
    }

    /** openAddModal: open, with no editing target. */
    method OpenAdd()
      modifies this
      ensures showModal && editing == None && budgets == old(budgets)
    {
      editing := None;
      showModal := true;
    }

    /** openEditModal: open, editing the given budget. */
    method OpenEdit(b: Budget)
      modifies this
      ensures showModal && editing == Some(b) && budgets == old(budgets)
    {
      editing := Some(b);
      showModal := true;
    }

    /** closeModal: closed, with no editing target. */
    method Close()
      modifies this
      ensures !showModal && editing == None && budgets == old(budgets)
    {
      showModal := false;
      editing := None;
    }

    /** The modal's onSubmit: the edit handler when there is an editing target, the add handler otherwise. */
    method Submit(data: BudgetPatch, stamp: string) returns (r: Result<Budget>)
      modifies this, service
      ensures old(editing).None? ==>
        r == Ok(OverlayBudget(BlankBudget, data).(Id := old(service.GetNextId()), createdAt := stamp))
        && service.budgets == old(service.budgets) + [r.value]
        && budgets == [r.value] + old(budgets)
        && editing == old(editing)
      ensures old(editing).Some? ==>
        var id := old(editing).value.Id;
        var ids := old(BudgetIds(service.budgets));
        (id !in ids ==>
           r.Err? && service.budgets == old(service.budgets)
           && budgets == old(budgets) && editing == old(editing))
        && (id in ids ==>
              r == Ok(OverlayBudget(old(service.budgets)[Keys.IndexOf(ids, id)], data))
              && service.budgets == old(service.budgets)[Keys.IndexOf(ids, id) := r.value]
              && budgets == ListUpdates.ReplaceById(old(budgets), BudgetId, id, r.value)
              && editing == None)
      ensures showModal == old(showModal) && expenses == old(expenses)
    {
      if editing.Some? {
        r := HandleEdit(data);
      } else {
        var created := HandleAdd(data, stamp);
        r := Ok(created);
      }
    }

    /** totalBudgets: the sum of the limits on the page. */
    function Total(): real
      reads this
    {
      DashboardStatsView.TotalBudgets(budgets)
    }
  }
}
