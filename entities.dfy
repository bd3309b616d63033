/**
 * The four record kinds held by the services, and for each mutable kind a
 * patch: a JavaScript object carrying some of the record's fields. Object
 * spread `{ ...record, ...patch }` is `Overlay`. Amounts are reals (no
 * floating-point rounding); dates are kept as the ISO-8601 text the records hold.
 */
module Entities {
  import opened Wrappers
  import Keys

  datatype Expense = Expense(
    Id: int, amount: real, category: string, description: string, date: string, createdAt: string)

  datatype ExpensePatch = ExpensePatch(
    Id: Option<int>, amount: Option<real>, category: Option<string>,
    description: Option<string>, date: Option<string>, createdAt: Option<string>)

  /** `dueDate` is `null` or absent (None), or a date text; isPaid defaults to false. */
  datatype Debt = Debt(
    Id: int, personName: string, amount: real, description: string,
    dueDate: Option<string>, isPaid: bool, createdAt: string)

  datatype DebtPatch = DebtPatch(
    Id: Option<int>, personName: Option<string>, amount: Option<real>, description: Option<string>,
    dueDate: Option<Option<string>>, isPaid: Option<bool>, createdAt: Option<string>)

  datatype Budget = Budget(
    Id: int, category: string, limit: real, period: string, createdAt: string)

  datatype BudgetPatch = BudgetPatch(
    Id: Option<int>, category: Option<string>, limit: Option<real>,
    period: Option<string>, createdAt: Option<string>)

  datatype Category = Category(Id: int, name: string, icon: string, color: string)

  function ExpenseId(e: Expense): int { e.Id }
  function DebtId(d: Debt): int { d.Id }
  function BudgetId(b: Budget): int { b.Id }
  function CategoryId(c: Category): int { c.Id }

  function ExpenseIds(s: seq<Expense>): seq<int> { Keys.Column(s, ExpenseId) }
  function DebtIds(s: seq<Debt>): seq<int> { Keys.Column(s, DebtId) }
  function BudgetIds(s: seq<Budget>): seq<int> { Keys.Column(s, BudgetId) }
  function CategoryIds(s: seq<Category>): seq<int> { Keys.Column(s, CategoryId) }

  function ExpenseAmount(e: Expense): real { e.amount }
  function DebtAmount(d: Debt): real { d.amount }
  function BudgetLimit(b: Budget): real { b.limit }

  // ----- Expense -----

  /** `{ ...e, ...p }`: each field the patch carries wins; the others are kept. */
  function OverlayExpense(e: Expense, p: ExpensePatch): (r: Expense)
    ensures p.Id.None? ==> r.Id == e.Id
    ensures p.Id.Some? ==> r.Id == p.Id.value
    ensures p.amount.None? ==> r.amount == e.amount
    ensures p.amount.Some? ==> r.amount == p.amount.value
    ensures p.category.None? ==> r.category == e.category
    ensures p.category.Some? ==> r.category == p.category.value
    ensures p.description.None? ==> r.description == e.description
    ensures p.description.Some? ==> r.description == p.description.value
    ensures p.date.None? ==> r.date == e.date
    ensures p.date.Some? ==> r.date == p.date.value
    ensures p.createdAt.None? ==> r.createdAt == e.createdAt
    ensures p.createdAt.Some? ==> r.createdAt == p.createdAt.value
  {
    Expense(p.Id.GetOr(e.Id), p.amount.GetOr(e.amount), p.category.GetOr(e.category),
            p.description.GetOr(e.description), p.date.GetOr(e.date), p.createdAt.GetOr(e.createdAt))
  }

  /** `{}`. */
  const EmptyExpensePatch := ExpensePatch(None, None, None, None, None, None)

  /** `{ ...e }`: every field of a record, as a patch. */
  function ExpenseAsPatch(e: Expense): ExpensePatch {
    ExpensePatch(Some(e.Id), Some(e.amount), Some(e.category), Some(e.description), Some(e.date), Some(e.createdAt))
  }

  /** The values a field takes in a created record when the input object lacks it. */
  const BlankExpense := Expense(0, 0.0, "", "", "", "")

  lemma OverlayExpenseLaws(e: Expense, f: Expense, p: ExpensePatch)
    ensures OverlayExpense(e, EmptyExpensePatch) == e
    ensures OverlayExpense(e, ExpenseAsPatch(f)) == f
    ensures OverlayExpense(OverlayExpense(e, p), p) == OverlayExpense(e, p)
  {
  }

  // ----- Debt -----

  function OverlayDebt(d: Debt, p: DebtPatch): (r: Debt)
    ensures p.Id.None? ==> r.Id == d.Id
    ensures p.Id.Some? ==> r.Id == p.Id.value
    ensures p.personName.None? ==> r.personName == d.personName
    ensures p.personName.Some? ==> r.personName == p.personName.value
    ensures p.amount.None? ==> r.amount == d.amount
    ensures p.amount.Some? ==> r.amount == p.amount.value
    ensures p.description.None? ==> r.description == d.description
    ensures p.description.Some? ==> r.description == p.description.value
    ensures p.dueDate.None? ==> r.dueDate == d.dueDate
    ensures p.dueDate.Some? ==> r.dueDate == p.dueDate.value
    ensures p.isPaid.None? ==> r.isPaid == d.isPaid
    ensures p.isPaid.Some? ==> r.isPaid == p.isPaid.value
    ensures p.createdAt.None? ==> r.createdAt == d.createdAt
    ensures p.createdAt.Some? ==> r.createdAt == p.createdAt.value
  {
    Debt(p.Id.GetOr(d.Id), p.personName.GetOr(d.personName), p.amount.GetOr(d.amount),
         p.description.GetOr(d.description), p.dueDate.GetOr(d.dueDate), p.isPaid.GetOr(d.isPaid),
         p.createdAt.GetOr(d.createdAt))
  }

  const EmptyDebtPatch := DebtPatch(None, None, None, None, None, None, None)

  function DebtAsPatch(d: Debt): DebtPatch {
    DebtPatch(Some(d.Id), Some(d.personName), Some(d.amount), Some(d.description), Some(d.dueDate),
              Some(d.isPaid), Some(d.createdAt))
  }

  /** `!debt.isPaid`: the debt still counts as outstanding. */
  function IsUnpaid(d: Debt): bool { !d.isPaid }

  /** `debt.dueDate` is truthy: null, absent and the empty string are all "no due date". */
  predicate HasDueDate(d: Debt) {
    d.dueDate.Some? && d.dueDate.value != ""
  }

  const BlankDebt := Debt(0, "", 0.0, "", None, false, "")

  lemma OverlayDebtLaws(d: Debt, f: Debt, p: DebtPatch)
    ensures OverlayDebt(d, EmptyDebtPatch) == d
    ensures OverlayDebt(d, DebtAsPatch(f)) == f
    ensures OverlayDebt(OverlayDebt(d, p), p) == OverlayDebt(d, p)
  {
  }

  // ----- Budget -----

  function OverlayBudget(b: Budget, p: BudgetPatch): (r: Budget)
    ensures p.Id.None? ==> r.Id == b.Id
    ensures p.Id.Some? ==> r.Id == p.Id.value
    ensures p.category.None? ==> r.category == b.category
    ensures p.category.Some? ==> r.category == p.category.value
    ensures p.limit.None? ==> r.limit == b.limit
    ensures p.limit.Some? ==> r.limit == p.limit.value
    ensures p.period.None? ==> r.period == b.period
    ensures p.period.Some? ==> r.period == p.period.value
    ensures p.createdAt.None? ==> r.createdAt == b.createdAt
    ensures p.createdAt.Some? ==> r.createdAt == p.createdAt.value
  {
    Budget(p.Id.GetOr(b.Id), p.category.GetOr(b.category), p.limit.GetOr(b.limit),
           p.period.GetOr(b.period), p.createdAt.GetOr(b.createdAt))
  }

  const EmptyBudgetPatch := BudgetPatch(None, None, None, None, None)

  const BlankBudget := Budget(0, "", 0.0, "", "")

  lemma OverlayBudgetLaws(b: Budget, p: BudgetPatch)
    ensures OverlayBudget(b, EmptyBudgetPatch) == b
    ensures OverlayBudget(OverlayBudget(b, p), p) == OverlayBudget(b, p)
  {
  }
}
