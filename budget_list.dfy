/**
 * BudgetList: the budget search and, per budget, the progress figures and
 * the colour of the progress bar.
 */
module BudgetListView {
  import opened Entities
  import Lists
  import Text

  function InCategory(category: string): Expense -> bool {
    (e: Expense) => e.category == category
  }

  /**
   * The sum of the amounts of the expenses whose category is exactly the
   * budget's category. The budget's period is not consulted: all-time spending
   * counts against a weekly or monthly budget alike.
   */
  function Spent(budget: Budget, expenses: seq<Expense>): real {
    Lists.SumOf(Lists.Filter(expenses, InCategory(budget.category)), ExpenseAmount)
  }

  /**
   * A JavaScript number after `Math.min(x, 100)`: finite, or -Infinity, or
   * NaN. (+Infinity cannot remain after the clamp.)
   */
  datatype Percent = Finite(value: real) | NegInfinity | NotANumber

  function Min(a: real, b: real): real { if a <= b then a else b }
  function Max(a: real, b: real): real { if a >= b then a else b }

  /** `(spent / limit) * 100` for a positive limit is at least t exactly when spent * 100 is at least t * limit. */
  lemma ScaledAtLeast(spent: real, limit: real, t: real)
    requires limit > 0.0
    ensures spent / limit * 100.0 >= t <==> spent * 100.0 >= t * limit
  {
    var q := spent / limit;
    assert q * limit == spent;
    if q * 100.0 >= t {
      assert q * 100.0 * limit >= t * limit;
    }
    if spent * 100.0 >= t * limit {
      assert (q * 100.0) * limit >= t * limit;
    }
  }

  /**
   * `Math.min((spent / limit) * 100, 100)`. For a zero limit JavaScript
   * divides by zero: a positive spend gives +Infinity, clamped to 100; a
   * negative one -Infinity; zero over zero NaN.
   */
  function UsedPercent(spent: real, limit: real): (p: Percent)
    ensures p.Finite? ==> p.value <= 100.0
    ensures limit > 0.0 ==> p.Finite? && (p.value == 100.0 <==> spent >= limit)
    ensures limit > 0.0 && spent < limit ==> p == Finite(spent / limit * 100.0)
    ensures limit == 0.0 ==> (p.NotANumber? <==> spent == 0.0) && (p.NegInfinity? <==> spent < 0.0)
  {
    if limit > 0.0 then
      ScaledAtLeast(spent, limit, 100.0);
      Finite(Min(spent / limit * 100.0, 100.0))
    else if limit < 0.0 then Finite(Min(spent / limit * 100.0, 100.0))
    else if spent > 0.0 then Finite(100.0)
    else if spent < 0.0 then NegInfinity
    else NotANumber
  }

  datatype Progress = Progress(spent: real, percentage: Percent, remaining: real, isOverBudget: bool)

  /** getBudgetProgress(budget). */
  function BudgetProgress(budget: Budget, expenses: seq<Expense>): (p: Progress)
    ensures p.spent == Spent(budget, expenses)
    ensures p.remaining >= 0.0
    ensures p.remaining == Max(budget.limit - p.spent, 0.0)
    ensures p.isOverBudget <==> p.spent > budget.limit
    ensures p.percentage.Finite? ==> p.percentage.value <= 100.0
  {
    var spent := Spent(budget, expenses);
    Progress(spent, UsedPercent(spent, budget.limit), Max(budget.limit - spent, 0.0), spent > budget.limit)
  }

  /** The amount shown beside "Over by" / "Remaining". */
  function ShownBalance(p: Progress, limit: real): (r: real)
    requires p.remaining == Max(limit - p.spent, 0.0)
    requires p.isOverBudget <==> p.spent > limit
    ensures r >= 0.0
    ensures p.isOverBudget ==> r > 0.0 && r == p.spent - limit
    ensures !p.isOverBudget ==> r == limit - p.spent
  {
    if p.isOverBudget then p.spent - limit else p.remaining
  }

  datatype BarColor = Red | Yellow | Blue | Accent   // bg-red-500, bg-yellow-500, bg-blue-500, bg-accent-500

  /** `percentage >= t` on a JavaScript number; NaN and -Infinity fail it. */
  predicate AtLeast(p: Percent, t: real) {
    p.Finite? && p.value >= t
  }

  /** getProgressColor: over budget first, then the 80 and 60 thresholds. */
  function ProgressColor(percentage: Percent, isOverBudget: bool): BarColor {
    if isOverBudget then Red
    else if AtLeast(percentage, 80.0) then Yellow
    else if AtLeast(percentage, 60.0) then Blue
    else Accent
  }

  function Severity(c: BarColor): nat {
    match c
    case Accent => 0
    case Blue => 1
    case Yellow => 2
    case Red => 3
  }

  /** Among budgets within their limit, more usage never gives a milder colour. */
  lemma ColorMonotone(a: real, b: real)
    requires a <= b
    ensures Severity(ProgressColor(Finite(a), false)) <= Severity(ProgressColor(Finite(b), false))
  {
  }

  /**
   * The colour of a budget with a positive limit, stated in terms of what
   * was spent: red above the limit, yellow from 80% of it, blue from 60%.
   */
  lemma {:induction false} ColorBySpending(budget: Budget, expenses: seq<Expense>)
    requires budget.limit > 0.0
    ensures var p := BudgetProgress(budget, expenses);
      var c := ProgressColor(p.percentage, p.isOverBudget);
      (c == Red <==> p.spent > budget.limit)
      && (c == Yellow <==> 80.0 * budget.limit <= p.spent * 100.0 && p.spent <= budget.limit)
      && (c == Blue <==> 60.0 * budget.limit <= p.spent * 100.0 < 80.0 * budget.limit)
      && (c == Accent <==> p.spent * 100.0 < 60.0 * budget.limit)
  {
    var p := BudgetProgress(budget, expenses);
    ScaledAtLeast(p.spent, budget.limit, 80.0);
    ScaledAtLeast(p.spent, budget.limit, 60.0);
    ScaledAtLeast(p.spent, budget.limit, 100.0);
  }

  /**
   * The worked example: limit 100 for Food, Food expenses of 30 and 90: 120
   * spent, shown as 100%, over by 20, red.
   */
  lemma OverBudgetExample(e: Expense)
    ensures var b := Budget(1, "Food", 100.0, "monthly", "");
      var p := BudgetProgress(b, [e.(category := "Food", amount := 30.0), e.(category := "Food", amount := 90.0)]);
      p.spent == 120.0 && p.percentage == Finite(100.0) && p.isOverBudget
      && ShownBalance(p, b.limit) == 20.0 && ProgressColor(p.percentage, p.isOverBudget) == Red
  {
    var xs := [e.(category := "Food", amount := 30.0), e.(category := "Food", amount := 90.0)];
    Lists.FilterAll(xs, InCategory("Food"));
    Lists.SumOfAppend([], xs[0], ExpenseAmount);
    assert [] + [xs[0]] == [xs[0]];
    Lists.SumOfAppend([xs[0]], xs[1], ExpenseAmount);
    assert [xs[0]] + [xs[1]] == xs;
  }

  /** filteredBudgets: the budgets whose category contains the search term, ignoring case, in order. */
  function SearchBudgets(budgets: seq<Budget>, term: string): seq<Budget> {
    Lists.Filter(budgets, (b: Budget) => Text.ContainsIgnoringCase(b.category, term))
  }

  lemma {:induction false} SearchBudgetsSpec(budgets: seq<Budget>, term: string)
    ensures Lists.IsSubseq(SearchBudgets(budgets, term), budgets)
    ensures forall b :: b in SearchBudgets(budgets, term) <==> b in budgets && Text.ContainsIgnoringCase(b.category, term)
    ensures term == "" ==> SearchBudgets(budgets, term) == budgets
  {
    Lists.FilterIsSubseq(budgets, (b: Budget) => Text.ContainsIgnoringCase(b.category, term));
    if term == "" {
      forall i | 0 <= i < |budgets| ensures Text.ContainsIgnoringCase(budgets[i].category, term) {
        assert Text.Lower(term) == "";
      }
      Lists.FilterAll(budgets, (b: Budget) => Text.ContainsIgnoringCase(b.category, term));
    }
  }
}
