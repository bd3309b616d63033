/**
 * The Expenses page: its local copy of the expenses, the add/edit/delete
 * handlers that call the service and then update that copy, and the
 * open/close/edit state of the modal. Loading and error display, toasts and
 * the confirmation dialog are not modelled; the dialog's answer is a parameter.
 */
module ExpensesPage {
  import opened Wrappers
  import opened Entities
  import Keys
  import Lists
  import Ordering
  import ListUpdates
  import ExpenseApi
  import DashboardStatsView

  class ExpensesPageState {
    const service: ExpenseApi.ExpenseService
    /** `expenses` state: the list the page shows. */
    var expenses: seq<Expense>
    var showModal: bool
    /** `editingExpense`: None is `null`. */
    var editing: Option<Expense>

    constructor (service: ExpenseApi.ExpenseService)
      ensures this.service == service
      ensures expenses == [] && !showModal && editing == None
    {
      this.service := service;
      expenses := [];
      showModal := false;
      editing := None;
    }

    /** loadExpenses: the page shows the service's list, newest first. */
    method Load(instant: string -> int)
      modifies this
      ensures expenses == Ordering.SortDesc(service.expenses, ExpenseApi.ByDate(instant))
      ensures multiset(expenses) == multiset(service.expenses)
      ensures showModal == old(showModal) && editing == old(editing)
    {
      expenses := service.GetAll(instant);
    }

    /** handleAddExpense: the created expense goes to the FRONT of the page's list. */
    method HandleAdd(data: ExpensePatch, stamp: string) returns (created: Expense)
      modifies this, service
      ensures service.expenses == old(service.expenses) + [created]
      ensures created == OverlayExpense(BlankExpense, data).(Id := old(service.GetNextId()), createdAt := stamp)
      ensures expenses == [created] + old(expenses)
      ensures Total() == old(Total()) + created.amount
      ensures showModal == old(showModal) && editing == old(editing)
    {
      created := service.Create(data, stamp);
      DashboardStatsView.AddExpenseRaisesTotal(expenses, created);
      expenses := [created] + expenses;
    }

    /**
     * handleEditExpense: the service updates the editing target; on success
     * every page entry with that Id becomes the updated record and the target
     * is cleared. A failed update leaves the page as it was.
     */
    method HandleEdit(data: ExpensePatch) returns (r: Result<Expense>)
      requires editing.Some?
      modifies this, service
      ensures var id := old(editing).value.Id;
        var ids := old(ExpenseIds(service.expenses));
        (id !in ids ==>
           r.Err? && service.expenses == old(service.expenses)
           && expenses == old(expenses) && editing == old(editing))
        && (id in ids ==>
              r == Ok(OverlayExpense(old(service.expenses)[Keys.IndexOf(ids, id)], data))
              && service.expenses == old(service.expenses)[Keys.IndexOf(ids, id) := r.value]
              && expenses == ListUpdates.ReplaceById(old(expenses), ExpenseId, id, r.value)
              && editing == None)
      ensures showModal == old(showModal)
    {
      var id := editing.value.Id;
      r := service.Update(id, data);
      if r.Ok? {
        expenses := ListUpdates.ReplaceById(expenses, ExpenseId, id, r.value);
        editing := None;
      }
    }

    /**
     * handleDeleteExpense: nothing happens unless the user confirms; then the
     * page drops every entry with that Id only when the service delete succeeds.
     */
    method HandleDelete(id: int, confirmed: bool) returns (deleted: bool)
      modifies this, service
      ensures deleted <==> confirmed && id in old(ExpenseIds(service.expenses))
      ensures !deleted ==> service.expenses == old(service.expenses) && expenses == old(expenses)
      ensures deleted ==>
        service.expenses == Keys.RemoveAt(old(service.expenses), Keys.IndexOf(old(ExpenseIds(service.expenses)), id))
        && expenses == ListUpdates.RemoveById(old(expenses), ExpenseId, id)
      ensures showModal == old(showModal) && editing == old(editing)
    {
      deleted := false;
      if confirmed {
        var r := service.Delete(id);
        if r.Ok? {
          expenses := ListUpdates.RemoveById(expenses, ExpenseId, id);
          deleted := true;
        }
      }
    }

    /** openAddModal: open, with no editing target. */
    method OpenAdd()
      modifies this
      ensures showModal && editing == None && expenses == old(expenses)
    {
      editing := None;
      showModal := true;
    }

    /** openEditModal: open, editing the given expense. */
    method OpenEdit(e: Expense)
      modifies this
      ensures showModal && editing == Some(e) && expenses == old(expenses)
    {
      editing := Some(e);
      showModal := true;
    }

    /** closeModal: closed, with no editing target. */
    method Close()
      modifies this
      ensures !showModal && editing == None && expenses == old(expenses)
    {
      showModal := false;
      editing := None;
    }

    /** The modal's onSubmit: the edit handler when there is an editing target, the add handler otherwise. */
    method Submit(data: ExpensePatch, stamp: string) returns (r: Result<Expense>)
      modifies this, service
      ensures old(editing).None? ==>
        r == Ok(OverlayExpense(BlankExpense, data).(Id := old(service.GetNextId()), createdAt := stamp))
        && service.expenses == old(service.expenses) + [r.value]
        && expenses == [r.value] + old(expenses)
        && editing == old(editing)
      ensures old(editing).Some? ==>
        var id := old(editing).value.Id;
        var ids := old(ExpenseIds(service.expenses));
        (id !in ids ==>
           r.Err? && service.expenses == old(service.expenses)
           && expenses == old(expenses) && editing == old(editing))
        && (id in ids ==>
              r == Ok(OverlayExpense(old(service.expenses)[Keys.IndexOf(ids, id)], data))
              && service.expenses == old(service.expenses)[Keys.IndexOf(ids, id) := r.value]
              && expenses == ListUpdates.ReplaceById(old(expenses), ExpenseId, id, r.value)
              && editing == None)
      ensures showModal == old(showModal)
    {
      if editing.Some? {
        r := HandleEdit(data);
      } else {
        var created := HandleAdd(data, stamp);
        r := Ok(created);
      }
    }

    /** totalExpenses: the sum of the amounts on the page. */
    function Total(): real
      reads this
    {
      DashboardStatsView.TotalExpenses(expenses)
    }
  }
}
