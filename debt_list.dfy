/**
 * DebtList: the search-and-status filter, the status badge of each debt,
 * and which actions a row offers.
 */
module DebtListView {
  import opened Wrappers
  import opened Entities
  import Lists
  import Text
  import Formatters

  /** matchesSearch: the person's name or the description contains the term, ignoring case. */
  predicate MatchesSearch(d: Debt, term: string) {
    Text.ContainsIgnoringCase(d.personName, term) || Text.ContainsIgnoringCase(d.description, term)
  }

  /** matchesStatus: "" is every debt, "paid" and "unpaid" select by isPaid; any other value matches none. */
  predicate MatchesStatus(d: Debt, status: string) {
    status == "" || (status == "paid" && d.isPaid) || (status == "unpaid" && !d.isPaid)
  }

  function FilterDebts(debts: seq<Debt>, term: string, status: string): seq<Debt> {
    Lists.Filter(debts, (d: Debt) => MatchesSearch(d, term) && MatchesStatus(d, status))
  }

  /** filteredDebts: the ordered subsequence of the debts that pass both tests. */
  lemma {:induction false} FilterDebtsSpec(debts: seq<Debt>, term: string, status: string)
    ensures Lists.IsSubseq(FilterDebts(debts, term, status), debts)
    ensures forall d :: d in FilterDebts(debts, term, status) <==>
      d in debts && MatchesSearch(d, term) && MatchesStatus(d, status)
    ensures status == "paid" ==> forall d :: d in FilterDebts(debts, term, status) ==> d.isPaid
    ensures status == "unpaid" ==> forall d :: d in FilterDebts(debts, term, status) ==> !d.isPaid
    ensures term == "" && status == "" ==> FilterDebts(debts, term, status) == debts
  {
    var p := (d: Debt) => MatchesSearch(d, term) && MatchesStatus(d, status);
    Lists.FilterIsSubseq(debts, p);
    if term == "" && status == "" {
      assert Text.Lower(term) == "";
      Lists.FilterAll(debts, p);
    }
  }

  datatype Status = Paid | Overdue | DueSoon | Pending

  /**
   * getStatusBadge. `instant` stands for `new Date(...)` on the due date and
   * `now` for the current time, both in milliseconds.
   */
  function DebtStatus(d: Debt, now: int, instant: string -> int): Status {
    if d.isPaid then Paid
    else if HasDueDate(d) then
      var diff := Formatters.DayDiff(instant(d.dueDate.value), now);
      if diff < 0 then Overdue
      else if diff <= 7 then DueSoon
      else Pending
    else Pending
  }

  /**
   * The badge in terms of the day difference: paid wins regardless of the
   * due date; otherwise a negative difference is overdue, 0 to 7 inclusive is
   * due soon, and no due date or more than 7 days is pending.
   */
  lemma StatusByDays(d: Debt, now: int, instant: string -> int)
    ensures d.isPaid ==> DebtStatus(d, now, instant) == Paid
    ensures !d.isPaid && !HasDueDate(d) ==> DebtStatus(d, now, instant) == Pending
    ensures !d.isPaid && HasDueDate(d) ==>
      var diff := Formatters.DayDiff(instant(d.dueDate.value), now);
      (DebtStatus(d, now, instant) == Overdue <==> diff < 0)
      && (DebtStatus(d, now, instant) == DueSoon <==> 0 <= diff <= 7)
      && (DebtStatus(d, now, instant) == Pending <==> diff > 7)
  {
  }

  /**
   * The badge in milliseconds: a debt becomes overdue only once its due
   * instant is a full day or more in the past; a due instant earlier today
   * still reads "Due Soon".
   */
  lemma StatusByMilliseconds(d: Debt, now: int, instant: string -> int)
    requires !d.isPaid && HasDueDate(d)
    ensures var gap := instant(d.dueDate.value) - now;
      (DebtStatus(d, now, instant) == Overdue <==> gap <= -Formatters.MsPerDay)
      && (DebtStatus(d, now, instant) == DueSoon <==> -Formatters.MsPerDay < gap <= 7 * Formatters.MsPerDay)
      && (DebtStatus(d, now, instant) == Pending <==> gap > 7 * Formatters.MsPerDay)
  {
    var gap := instant(d.dueDate.value) - now;
    var diff := Formatters.DayDiff(instant(d.dueDate.value), now);
    assert (diff - 1) * Formatters.MsPerDay < gap <= diff * Formatters.MsPerDay;
    if diff < 0 {
      assert diff * Formatters.MsPerDay <= -Formatters.MsPerDay;
    } else if diff <= 7 {
      assert (diff - 1) * Formatters.MsPerDay >= -Formatters.MsPerDay;
      assert diff * Formatters.MsPerDay <= 7 * Formatters.MsPerDay;
    } else {
      assert (diff - 1) * Formatters.MsPerDay >= 7 * Formatters.MsPerDay;
    }
  }

  /** The examples: due in 3 days is due soon, due a day ago is overdue, paid is paid whatever the date. */
  lemma StatusExamples(d: Debt, now: int, instant: string -> int)
    requires HasDueDate(d)
    ensures instant(d.dueDate.value) == now + 3 * Formatters.MsPerDay ==> DebtStatus(d.(isPaid := false), now, instant) == DueSoon
    ensures instant(d.dueDate.value) == now - Formatters.MsPerDay ==> DebtStatus(d.(isPaid := false), now, instant) == Overdue
    ensures DebtStatus(d.(isPaid := true), now, instant) == Paid
  {
    StatusByMilliseconds(d.(isPaid := false), now, instant);
  }

  datatype RowAction = MarkPaid | Edit | Delete

  /** The buttons of a row: Mark Paid only while the debt is unpaid. */
  function RowActions(d: Debt): (actions: seq<RowAction>)
    ensures MarkPaid in actions <==> !d.isPaid
    ensures Edit in actions && Delete in actions
  {
    (if d.isPaid then [] else [MarkPaid]) + [Edit, Delete]
  }
}
