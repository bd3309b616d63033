/**
 * DebtService: the in-memory repository of debts owed to the user. The simulated network
 * delay is left out; each operation returns its value or an error at once.
 */
module DebtApi {
  import opened Wrappers
  import opened Entities
  import Keys
  import Ordering

  /** `new Date(d.createdAt)` as the sort key; `instant` stands for JavaScript's date parsing. */
  function ByCreatedAt(instant: string -> int): Debt -> int {
    (d: Debt) => instant(d.createdAt)
  }

  class DebtService {
    /** `this.debts`, in insertion order. */
    var debts: seq<Debt>

    /** The store starts as a copy of the fixture list. */
    constructor (fixture: seq<Debt>)
      ensures debts == fixture
    {
      debts := fixture;
    }

    /** One more than the largest stored Id (1 on an empty store). */
    function GetNextId(): (n: int)
      reads this
      ensures forall i :: 0 <= i < |debts| ==> debts[i].Id < n
      ensures n == 1 || exists i :: 0 <= i < |debts| && debts[i].Id == n - 1
    {
      var n := Keys.NextId(DebtIds(debts));
      assert n != 1 ==> DebtIds(debts)[Keys.IndexOf(DebtIds(debts), n - 1)] == n - 1;
      n
    }

    /** A copy of every stored debt, newest `createdAt` first; the store keeps its order. */
    method GetAll(instant: string -> int) returns (r: seq<Debt>)
      ensures r == Ordering.SortDesc(debts, ByCreatedAt(instant))
      ensures multiset(r) == multiset(debts)
      ensures Ordering.SortedDesc(r, ByCreatedAt(instant))
    {
      r := Ordering.SortDesc(debts, ByCreatedAt(instant));
      Ordering.SortPermutes(debts, ByCreatedAt(instant));
      Ordering.SortSorted(debts, ByCreatedAt(instant));
    }

    /** The first debt with this Id, or "Debt not found". */
    method GetById(id: int) returns (r: Result<Debt>)
      ensures r.Err? <==> id !in DebtIds(debts)
      ensures r.Err? ==> r.message == "Debt not found"
      ensures r.Ok? ==> (r.value.Id == id && r.value == debts[Keys.IndexOf(DebtIds(debts), id)])
    {
      var index := Keys.IndexOf(DebtIds(debts), id);
      if index == -1 {
        return Err("Debt not found");
      }
      return Ok(debts[index]);
    }

    /**
     * Appends `{ ...data, Id: getNextId(), isPaid: false, createdAt: stamp }`:
     * any Id, isPaid or createdAt in the input is overridden, every other
     * field is kept. A new debt is always unpaid.
     */
    method Create(data: DebtPatch, stamp: string) returns (r: Debt)
      modifies this
      ensures r == OverlayDebt(BlankDebt, data).(Id := old(GetNextId()), isPaid := false, createdAt := stamp)
      ensures !r.isPaid
      ensures debts == old(debts) + [r]
      ensures forall i :: 0 <= i < |old(debts)| ==> old(debts)[i].Id < r.Id
      ensures Keys.Unique(old(DebtIds(debts))) ==> Keys.Unique(DebtIds(debts))
    {
      r := OverlayDebt(BlankDebt, data).(Id := GetNextId(), isPaid := false, createdAt := stamp);
      Keys.ColumnAppend(debts, r, DebtId);
      if Keys.Unique(DebtIds(debts)) {
        Keys.UniqueAppendFresh(DebtIds(debts), r.Id);
      }
      debts := debts + [r];
    }

    /**
     * Overlays the patch on the first debt with this Id. A patch that
     * carries an Id overwrites the stored Id.
     */
    method Update(id: int, patch: DebtPatch) returns (r: Result<Debt>)
      modifies this
      ensures id !in old(DebtIds(debts)) ==> r == Err("Debt not found") && debts == old(debts)
      ensures id in old(DebtIds(debts)) ==>
        var k := Keys.IndexOf(old(DebtIds(debts)), id);
        r == Ok(OverlayDebt(old(debts)[k], patch)) && debts == old(debts)[k := r.value]
      ensures Keys.Unique(old(DebtIds(debts)))
        && (patch.Id.None? || patch.Id.value == id || patch.Id.value !in old(DebtIds(debts)))
        ==> Keys.Unique(DebtIds(debts))
    {
      var index := Keys.IndexOf(DebtIds(debts), id);
      if index == -1 {
        return Err("Debt not found");
      }
      var updated := OverlayDebt(debts[index], patch);
      Keys.ColumnUpdate(debts, index, updated, DebtId);
      debts := debts[index := updated];
      return Ok(updated);
    }

    /** Removes the first debt with this Id and answers true, or "Debt not found". */
    method Delete(id: int) returns (r: Result<bool>)
      modifies this
      ensures id !in old(DebtIds(debts)) ==> r == Err("Debt not found") && debts == old(debts)
      ensures id in old(DebtIds(debts)) ==>
        r == Ok(true) && debts == Keys.RemoveAt(old(debts), Keys.IndexOf(old(DebtIds(debts)), id))
      ensures Keys.Unique(old(DebtIds(debts))) ==>
        Keys.Unique(DebtIds(debts)) && id !in DebtIds(debts)
    {
      var index := Keys.IndexOf(DebtIds(debts), id);
      if index == -1 {
        return Err("Debt not found");
      }
      Keys.ColumnRemoveAt(debts, index, DebtId);
      if Keys.Unique(DebtIds(debts)) {
        Keys.UniqueRemoveAt(DebtIds(debts), index);
        Keys.RemovedIdGone(DebtIds(debts), id);
      }
      debts := Keys.RemoveAt(debts, index);
      return Ok(true);
    }
  }

  /**
   * Create ignores `isPaid: true` in its input, while update honours it:
   * marking a debt paid goes through update.
   */
  method PaidFlagExample(data: DebtPatch, stamp: string) returns (createdPaid: bool, updatedPaid: bool)
    ensures !createdPaid && updatedPaid
  {
    var service := new DebtService([]);
    var created := service.Create(data.(isPaid := Some(true)), stamp);
    createdPaid := created.isPaid;
    assert DebtIds(service.debts)[0] == created.Id;
    var updated := service.Update(created.Id, EmptyDebtPatch.(isPaid := Some(true)));
    updatedPaid := updated.value.isPaid;
  }
}
