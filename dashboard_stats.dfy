/**
 * DashboardStats: the four figures of the dashboard and the trend arrow of
 * the "Budget Remaining" card.
 */
module DashboardStatsView {
  import opened Wrappers
  import opened Entities
  import Lists

  /** `expenses.reduce((sum, e) => sum + e.amount, 0)`. */
  function TotalExpenses(expenses: seq<Expense>): real {
    Lists.SumOf(expenses, ExpenseAmount)
  }

  /** Outstanding debts: only the unpaid ones are added up. */
  function TotalDebts(debts: seq<Debt>): real {
    Lists.SumOf(Lists.Filter(debts, IsUnpaid), DebtAmount)
  }

  /** The sum of every budget's limit, whatever its period. */
  function TotalBudgets(budgets: seq<Budget>): real {
    Lists.SumOf(budgets, BudgetLimit)
  }

  /** The month (0-11) and full year of a date in local time. */
  datatype MonthYear = MonthYear(month: int, year: int)

  /**
   * `calendar` stands for `new Date(text)` followed by getMonth() and
   * getFullYear(); None is an invalid date, whose NaN month equals no month.
   */
  function InMonth(calendar: string -> Option<MonthYear>, current: MonthYear): Expense -> bool {
    (e: Expense) => calendar(e.date) == Some(current)
  }

  /** The expenses dated in the current month of the current year, added up. */
  function MonthlyExpenses(expenses: seq<Expense>, calendar: string -> Option<MonthYear>, current: MonthYear): real {
    Lists.SumOf(Lists.Filter(expenses, InMonth(calendar, current)), ExpenseAmount)
  }

  /** budgetUsage: the monthly spending as a percentage of all limits, or 0 when the limits do not add up to more than 0. */
  function BudgetUsage(monthly: real, totalBudgets: real): (u: real)
    ensures totalBudgets <= 0.0 ==> u == 0.0
    ensures totalBudgets > 0.0 ==> u * totalBudgets == monthly * 100.0
  {
    if totalBudgets > 0.0 then monthly / totalBudgets * 100.0 else 0.0
  }

  /** remainingBudget: not clamped, so it goes negative once the month overspends. */
  function RemainingBudget(monthly: real, totalBudgets: real): (r: real)
    ensures r < 0.0 <==> monthly > totalBudgets
    ensures r + monthly == totalBudgets
  {
    totalBudgets - monthly
  }

  datatype Trend = Down | Neutral | Up

  function TrendOf(usage: real): Trend {
    if usage > 80.0 then Down else if usage > 50.0 then Neutral else Up
  }

  /** The four cards' figures. */
  datatype Stats = Stats(totalExpenses: real, monthlyExpenses: real, totalDebts: real,
                         remainingBudget: real, usage: real, trend: Trend)

  function DashboardStats(expenses: seq<Expense>, debts: seq<Debt>, budgets: seq<Budget>,
                          calendar: string -> Option<MonthYear>, current: MonthYear): Stats {
    var monthly := MonthlyExpenses(expenses, calendar, current);
    var total := TotalBudgets(budgets);
    var usage := BudgetUsage(monthly, total);
    Stats(TotalExpenses(expenses), monthly, TotalDebts(debts), RemainingBudget(monthly, total), usage, TrendOf(usage))
  }

  /**
   * The trend in terms of the amounts themselves: with positive limits it
   * points down above 80% of them, is neutral above 50%, and up otherwise;
   * with no positive limit it always points up.
   */
  lemma TrendByAmounts(expenses: seq<Expense>, debts: seq<Debt>, budgets: seq<Budget>,
                       calendar: string -> Option<MonthYear>, current: MonthYear)
    ensures var s := DashboardStats(expenses, debts, budgets, calendar, current);
      var total := TotalBudgets(budgets);
      (total <= 0.0 ==> s.trend == Up)
      && (total > 0.0 ==>
            (s.trend == Down <==> s.monthlyExpenses * 100.0 > 80.0 * total)
            && (s.trend == Neutral <==> 50.0 * total < s.monthlyExpenses * 100.0 <= 80.0 * total)
            && (s.trend == Up <==> s.monthlyExpenses * 100.0 <= 50.0 * total))
  {
    var total := TotalBudgets(budgets);
    var monthly := MonthlyExpenses(expenses, calendar, current);
    if total > 0.0 {
      UsageAbove(monthly, total, 80.0);
      UsageAbove(monthly, total, 50.0);
    }
  }

  lemma UsageAbove(monthly: real, total: real, t: real)
    requires total > 0.0
    ensures BudgetUsage(monthly, total) > t <==> monthly * 100.0 > t * total
  {
    var u := BudgetUsage(monthly, total);
    assert u * total == monthly * 100.0;
    if u > t {
      assert (u - t) * total > 0.0;
    } else {
      assert (t - u) * total >= 0.0;
    }
  }

  /**
   * Total expenses split into the month's expenses and the rest; with
   * non-negative amounts the month's figure never exceeds the total.
   */
  lemma MonthlyWithinTotal(expenses: seq<Expense>, calendar: string -> Option<MonthYear>, current: MonthYear)
    ensures TotalExpenses(expenses) == MonthlyExpenses(expenses, calendar, current)
      + Lists.SumOf(Lists.Filter(expenses, Lists.Not(InMonth(calendar, current))), ExpenseAmount)
    ensures (forall i :: 0 <= i < |expenses| ==> expenses[i].amount >= 0.0) ==>
      0.0 <= MonthlyExpenses(expenses, calendar, current) <= TotalExpenses(expenses)
  {
    Lists.SumOfPartition(expenses, InMonth(calendar, current), ExpenseAmount);
    if forall i :: 0 <= i < |expenses| ==> expenses[i].amount >= 0.0 {
      Lists.FilterSumAtMost(expenses, InMonth(calendar, current), ExpenseAmount);
      var kept := Lists.Filter(expenses, InMonth(calendar, current));
      Lists.SumOfNonNegative(kept, ExpenseAmount);
    }
  }

  /** Outstanding debts: the total over all debts is the unpaid total plus the paid total. */
  lemma DebtsPartition(debts: seq<Debt>)
    ensures Lists.SumOf(debts, DebtAmount) == TotalDebts(debts)
      + Lists.SumOf(Lists.Filter(debts, Lists.Not(IsUnpaid)), DebtAmount)
  {
    Lists.SumOfPartition(debts, IsUnpaid, DebtAmount);
  }

  /** Marking an unpaid debt paid lowers the outstanding total by exactly its amount. */
  lemma {:induction false} MarkPaidLowersOutstanding(debts: seq<Debt>, i: nat)
    requires i < |debts| && !debts[i].isPaid
    ensures TotalDebts(debts[i := debts[i].(isPaid := true)]) == TotalDebts(debts) - debts[i].amount
  {
    var n := |debts| - 1;
    var paid := debts[i := debts[i].(isPaid := true)];
    assert debts == debts[..n] + [debts[n]];
    assert paid == paid[..n] + [paid[n]];
    Lists.FilterAppend(debts[..n], debts[n], IsUnpaid);
    Lists.FilterAppend(paid[..n], paid[n], IsUnpaid);
    Lists.SumOfAppend(Lists.Filter(debts[..n], IsUnpaid), debts[n], DebtAmount);
    if i == n {
      assert paid[..n] == debts[..n];
    } else {
      assert paid[..n] == debts[..n][i := debts[i].(isPaid := true)];
      MarkPaidLowersOutstanding(debts[..n], i);
      Lists.SumOfAppend(Lists.Filter(paid[..n], IsUnpaid), paid[n], DebtAmount);
    }
  }

  /** Adding an expense raises the total by exactly its amount, wherever the page puts it. */
  lemma AddExpenseRaisesTotal(expenses: seq<Expense>, e: Expense)
    ensures TotalExpenses([e] + expenses) == TotalExpenses(expenses) + e.amount
  {
    Lists.SumOfPrepend(e, expenses, ExpenseAmount);
  }
}
