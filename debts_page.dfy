/**
 * The Debts page: its local copy of the debts, the add/edit/delete/mark-paid
 * handlers that call the service and then update that copy, and the
 * open/close/edit state of the modal. Loading and error display, toasts and
 * the confirmation dialog are not modelled; the dialog's answer is a parameter.
 */
module DebtsPage {
  import opened Wrappers
  import opened Entities
  import Keys
  import Lists
  import Ordering
  import ListUpdates
  import DebtApi
  import DashboardStatsView

  class DebtsPageState {
    const service: DebtApi.DebtService
    /** `debts` state: the list the page shows. */
    var debts: seq<Debt>
    var showModal: bool
    /** `editingDebt`: None is `null`. */
    var editing: Option<Debt>

    constructor (service: DebtApi.DebtService)
      ensures this.service == service
      ensures debts == [] && !showModal && editing == None
    {
      this.service := service;
      debts := [];
      showModal := false;
      editing := None;
    }

    /** loadDebts: the page shows the service's list, newest first. */
    method Load(instant: string -> int)
      modifies this
      ensures debts == Ordering.SortDesc(service.debts, DebtApi.ByCreatedAt(instant))
      ensures multiset(debts) == multiset(service.debts)
      ensures showModal == old(showModal) && editing == old(editing)
    {
      debts := service.GetAll(instant);
    }

    /** handleAddDebt: the created debt goes to the FRONT of the page's list. */
    method HandleAdd(data: DebtPatch, stamp: string) returns (created: Debt)
      modifies this, service
      ensures service.debts == old(service.debts) + [created]
      ensures created == OverlayDebt(BlankDebt, data).(Id := old(service.GetNextId()), isPaid := false, createdAt := stamp)
      ensures debts == [created] + old(debts)
      ensures TotalUnpaid() == old(TotalUnpaid()) + created.amount
      ensures showModal == old(showModal) && editing == old(editing)
    {
      created := service.Create(data, stamp);
      Lists.FilterPrepend(created, debts, IsUnpaid);
      Lists.SumOfPrepend(created, Lists.Filter(debts, IsUnpaid), DebtAmount);
      debts := [created] + debts;
    }

    /**
     * handleEditDebt: the service updates the editing target; on success
     * every page entry with that Id becomes the updated record and the target
     * is cleared. A failed update leaves the page as it was.
     */
    method HandleEdit(data: DebtPatch) returns (r: Result<Debt>)
      requires editing.Some?
      modifies this, service
      ensures var id := old(editing).value.Id;
        var ids := old(DebtIds(service.debts));
        (id !in ids ==>
           r.Err? && service.debts == old(service.debts)
           && debts == old(debts) && editing == old(editing))
        && (id in ids ==>
              r == Ok(OverlayDebt(old(service.debts)[Keys.IndexOf(ids, id)], data))
              && service.debts == old(service.debts)[Keys.IndexOf(ids, id) := r.value]
              && debts == ListUpdates.ReplaceById(old(debts), DebtId, id, r.value)
              && editing == None)
      ensures showModal == old(showModal)
    {
      var id := editing.value.Id;
      r := service.Update(id, data);
      if r.Ok? {
        debts := ListUpdates.ReplaceById(debts, DebtId, id, r.value);
        editing := None;
      }
    }

    /**
     * handleDeleteDebt: nothing happens unless the user confirms; then the
     * page drops every entry with that Id only when the service delete succeeds.
     */
    method HandleDelete(id: int, confirmed: bool) returns (deleted: bool)
      modifies this, service
      ensures deleted <==> confirmed && id in old(DebtIds(service.debts))
      ensures !deleted ==> service.debts == old(service.debts) && debts == old(debts)
      ensures deleted ==>
        service.debts == Keys.RemoveAt(old(service.debts), Keys.IndexOf(old(DebtIds(service.debts)), id))
        && debts == ListUpdates.RemoveById(old(debts), DebtId, id)
      ensures showModal == old(showModal) && editing == old(editing)
    {
      deleted := false;
      if confirmed {
        var r := service.Delete(id);
        if r.Ok? {
          debts := ListUpdates.RemoveById(debts, DebtId, id);
          deleted := true;
        }
      }
    }

    /** openAddModal: open, with no editing target. */
    method OpenAdd()
      modifies this
      ensures showModal && editing == None && debts == old(debts)
    {
      editing := None;
      showModal := true;
    }

    /** openEditModal: open, editing the given debt. */
    method OpenEdit(d: Debt)
      modifies this
      ensures showModal && editing == Some(d) && debts == old(debts)
    {
      editing := Some(d);
      showModal := true;
    }

    /** closeModal: closed, with no editing target. */
    method Close()
      modifies this
      ensures !showModal && editing == None && debts == old(debts)
    {
      showModal := false;
      editing := None;
    }

    /** The modal's onSubmit: the edit handler when there is an editing target, the add handler otherwise. */
    method Submit(data: DebtPatch, stamp: string) returns (r: Result<Debt>)
      modifies this, service
      ensures old(editing).None? ==>
        r == Ok(OverlayDebt(BlankDebt, data).(Id := old(service.GetNextId()), isPaid := false, createdAt := stamp))
        && service.debts == old(service.debts) + [r.value]
        && debts == [r.value] + old(debts)
        && editing == old(editing)
      ensures old(editing).Some? ==>
        var id := old(editing).value.Id;
        var ids := old(DebtIds(service.debts));
        (id !in ids ==>
           r.Err? && service.debts == old(service.debts)
           && debts == old(debts) && editing == old(editing))
        && (id in ids ==>
              r == Ok(OverlayDebt(old(service.debts)[Keys.IndexOf(ids, id)], data))
              && service.debts == old(service.debts)[Keys.IndexOf(ids, id) := r.value]
              && debts == ListUpdates.ReplaceById(old(debts), DebtId, id, r.value)
              && editing == None)
      ensures showModal == old(showModal)
    {
      if editing.Some? {
        r := HandleEdit(data);
      } else {
        var created := HandleAdd(data, stamp);
        r := Ok(created);
      }
    }

    /**
     * handleMarkPaid: the page's own copy of the debt, spread, with `isPaid:
     * true`, is sent as the patch, so every field the service holds is
     * overwritten from the page's copy. When the page holds no such debt the
     * patch is `{ isPaid: true }` alone. On success every page entry with that
     * Id becomes the result.
     */
    method MarkPaid(id: int) returns (r: Result<Debt>)
      modifies this, service
      ensures var ids := old(DebtIds(service.debts));
        (id !in ids ==>
           r.Err? && service.debts == old(service.debts) && debts == old(debts))
        && (id in ids ==>
              r.Ok? && r.value.isPaid
              && service.debts == old(service.debts)[Keys.IndexOf(ids, id) := r.value]
              && debts == ListUpdates.ReplaceById(old(debts), DebtId, id, r.value))
      ensures r.Ok? && id in old(DebtIds(debts)) ==>
        r.value == old(debts)[Keys.IndexOf(old(DebtIds(debts)), id)].(isPaid := true)
      ensures (r.Ok? && id in old(DebtIds(debts)) && Keys.Unique(old(DebtIds(debts)))
               && !old(debts)[Keys.IndexOf(old(DebtIds(debts)), id)].isPaid) ==>
        TotalUnpaid() == old(TotalUnpaid()) - old(debts)[Keys.IndexOf(old(DebtIds(debts)), id)].amount
      ensures showModal == old(showModal) && editing == old(editing)
    {
      var k := Keys.IndexOf(DebtIds(debts), id);
      var patch := if k >= 0 then DebtAsPatch(debts[k]).(isPaid := Some(true))
                   else EmptyDebtPatch.(isPaid := Some(true));
      r := service.Update(id, patch);
      if r.Ok? {
        if k >= 0 && Keys.Unique(DebtIds(debts)) && !debts[k].isPaid {
          ListUpdates.ReplaceByIdIsUpdate(debts, DebtId, id, r.value);
          DashboardStatsView.MarkPaidLowersOutstanding(debts, k);
        }
        debts := ListUpdates.ReplaceById(debts, DebtId, id, r.value);
      }
    }

    /** totalUnpaidDebts: the sum of the amounts of the unpaid debts on the page. */
    function TotalUnpaid(): real
      reads this
    {
      DashboardStatsView.TotalDebts(debts)
    }
  }
}
