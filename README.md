# moneymate core in Dafny

moneymate is a single-page personal-finance app. It keeps expenses, debts
(money owed by a person) and budgets (a spending limit per category) in
in-memory services, and shows them on three pages plus a dashboard. This
project models the parts of the app that hold logic:

- **The services** (`ExpenseService`, `DebtService`, `BudgetService`,
  `CategoryService`). The first three are classes that own a sequence of
  records and change it in place. Each method is proved against the old
  state:
  - `create` appends a record whose `Id` is one more than the largest Id;
  - `update` overlays a patch at the first matching index;
  - `delete` splices one record out;
  - `getAll` returns a newest-first sorted copy.

  The category service only reads its list, so it is a value.
- **The list views**:
  - budget progress, its colour, and the search (`BudgetList`);
  - the debt filter, the status badge and the row actions (`DebtList`);
  - the expense filter and the distinct category list (`ExpenseList`);
  - the dashboard figures and trend (`DashboardStats`);
  - the five most recent transactions (`RecentTransactions`). This view is
    an in-place insertion sort on an array, followed by a prefix.
- **The formatters**: the relative-date label, the compact-currency scale,
  and the category icon and colour tables.
- **The pages** (Expenses, Debts, Budget). Each page is a class holding:
  - its copy of the list;
  - the modal's open flag;
  - the editing target;
  - the service it calls.

  The handlers prepend on add, replace by Id on edit and filter by Id on
  delete. The Debts page also has Mark Paid. Their contracts state both the
  service's new store and the page's new list. The module `ListUpdates`
  proves that, with unique Ids, the page stays a permutation of the store.
- **The modals**. For each form the model has:
  - the validation rules and their messages;
  - the per-field error clearing on change;
  - the prefill and reset;
  - the payload handed to the page.

  `validateForm` is a method that fills a fresh error map field by field.

The environment is passed in as parameters:

- `instant: string -> int` is `new Date(text)` in milliseconds.
- `calendar` gives the month and year of a date text.
- `parse: string -> Option<real>` is the string-to-number conversion. `None` stands for NaN.
- `show: real -> string` is `Number.prototype.toString`.
- `toIso` is `new Date(text).toISOString()`.
- `now`, `today` and the creation stamp are plain values.

Amounts are `real`.

Two behaviours of the services are worth knowing:

- **Ids are reused.** The next Id is computed from the Ids that remain, so
  deleting the record with the largest Id hands that Id out again
  (`ExpenseApi.IdReuseExample`, `Keys.NextIdAfterRemovingMax`).
- **Update can change the Id.** The merge copies every field of the patch,
  so a patch that carries an `Id` overwrites the stored one, and two records
  can then share one Id (`ExpenseApi.PatchIdExample`). The services'
  uniqueness postconditions are therefore conditional on the patch.

## Model

| member | source | states |
|---|---|---|
| ExpenseApi.ExpenseService.constructor | src/services/api/expenseService.js:4-6 | the store starts as the fixture list |
| ExpenseApi.ExpenseService.GetAll | src/services/api/expenseService.js:8-11 | the result is a permutation of the store, sorted newest `date` first (the insertion-sort reference `SortDesc`); the store is not changed |
| ExpenseApi.ExpenseService.GetById | src/services/api/expenseService.js:13-20 | fails with "Expense not found" exactly when no stored record has the Id; otherwise yields the first record with that Id |
| ExpenseApi.ExpenseService.GetNextId | src/services/api/expenseService.js:53-55 | greater than every stored Id, and either 1 or one more than some stored Id |
| ExpenseApi.ExpenseService.Create | src/services/api/expenseService.js:22-31 | appends exactly one record: the input's fields over defaults, with the Id from GetNextId and the given stamp; the new Id exceeds every earlier Id, so unique Ids stay unique |
| ExpenseApi.ExpenseService.Update | src/services/api/expenseService.js:33-41 | an absent Id fails and changes nothing; otherwise only the first matching index changes, to the patch overlaid on the old record; Ids stay unique unless the patch brings in another record's Id |
| ExpenseApi.ExpenseService.Delete | src/services/api/expenseService.js:43-51 | an absent Id fails and changes nothing; otherwise the first match is spliced out, the rest keep their order, and with unique Ids the Id is gone |
| ExpenseApi.IdReuseExample | src/services/api/expenseService.js:49-54 | with Ids 1, 2, 3, deleting 3 and creating again yields Id 3 |
| ExpenseApi.PatchIdExample | src/services/api/expenseService.js:39 | updating record 1 with a patch carrying Id 2 leaves two records with Id 2 |
| DebtApi.DebtService.constructor | src/services/api/debtService.js:4-6 | the store starts as the fixture list |
| DebtApi.DebtService.GetAll | src/services/api/debtService.js:8-11 | a permutation of the store sorted newest `createdAt` first; the store is not changed |
| DebtApi.DebtService.GetById | src/services/api/debtService.js:13-20 | "Debt not found" exactly when the Id is absent, else the first match |
| DebtApi.DebtService.GetNextId | src/services/api/debtService.js:54-56 | greater than every stored Id, and 1 or one more than a stored Id |
| DebtApi.DebtService.Create | src/services/api/debtService.js:22-32 | appends one record with a fresh Id, the stamp and `isPaid` false whatever the input says |
| DebtApi.DebtService.Update | src/services/api/debtService.js:34-42 | absent Id fails with no change; otherwise the patch (an `isPaid: true` included) is overlaid at the first match only |
| DebtApi.DebtService.Delete | src/services/api/debtService.js:44-52 | absent Id fails with no change; otherwise exactly the first match is removed, order kept |
| DebtApi.PaidFlagExample | src/services/api/debtService.js:26-28 | creating from a paid input stores an unpaid debt, and an update with `isPaid: true` marks it paid |
| BudgetApi.BudgetService.constructor | src/services/api/budgetService.js:4-6 | the store starts as the fixture list |
| BudgetApi.BudgetService.GetAll | src/services/api/budgetService.js:8-11 | a permutation of the store sorted newest `createdAt` first; the store is not changed |
| BudgetApi.BudgetService.GetById | src/services/api/budgetService.js:13-20 | "Budget not found" exactly when the Id is absent, else the first match |
| BudgetApi.BudgetService.GetNextId | src/services/api/budgetService.js:53-55 | greater than every stored Id, and 1 or one more than a stored Id |
| BudgetApi.BudgetService.Create | src/services/api/budgetService.js:22-31 | appends one record with a fresh Id and the stamp, other input fields kept |
| BudgetApi.BudgetService.Update | src/services/api/budgetService.js:33-41 | absent Id fails with no change; otherwise only the matched index changes, as a field overlay |
| BudgetApi.BudgetService.Delete | src/services/api/budgetService.js:43-51 | absent Id fails with no change; otherwise only the first match is removed and the others keep their order |
| BudgetApi.DeleteKeepsOrderExample | src/services/api/budgetService.js:49 | with Ids 4, 7, 9 stored, deleting 7 leaves 4, 9 |
| CategoryApi.NewCategoryService | src/services/api/categoryService.js:4-6 | the service holds the fixture list |
| CategoryApi.CategoryService.GetAll | src/services/api/categoryService.js:8-11 | all categories in stored order, unsorted |
| CategoryApi.CategoryService.GetById | src/services/api/categoryService.js:13-20 | fails with "Category not found" exactly when no category has the Id; otherwise the first one that does |
| CategoryApi.FindsEarliest | src/services/api/categoryService.js:15 | looking up any stored category's Id succeeds, with a category at or before its position |
| Keys.NextId | src/services/api/expenseService.js:54 | at least 1, above every Id, and either 1 or one more than a stored Id |
| Keys.NextIdAfterRemovingMax | src/services/api/expenseService.js:49-54 | after removing the record with the largest Id, the next Id is at most that Id, and is that very Id again when it is 1 or its predecessor is stored |
| Keys.UniqueAppendFresh | src/services/api/expenseService.js:26-29 | appending an Id above all others keeps Ids unique |
| Keys.RemovedIdGone | src/services/api/expenseService.js:45-49 | with unique Ids, splicing out the first match removes the Id entirely |
| Entities.OverlayExpenseLaws | src/services/api/expenseService.js:39 | the empty patch changes nothing, a record's own fields as a patch reproduce it, and applying a patch twice is applying it once |
| Entities.OverlayDebtLaws | src/services/api/debtService.js:40 | the same three laws for debts |
| Entities.OverlayBudgetLaws | src/services/api/budgetService.js:39 | the empty patch changes nothing, and applying a patch twice is applying it once |
| Ordering.SortPermutes | src/services/api/expenseService.js:10 | the newest-first sort neither adds nor loses a record |
| Ordering.SortSorted | src/services/api/expenseService.js:10 | the sort's result is ordered by descending key |
| Ordering.SortStable | src/services/api/expenseService.js:10 | the sort is stable (as ECMAScript requires of `Array.prototype.sort`): for every key, the records with that key keep their input order, so records with equal dates come back in store order |
| Ordering.InsertKeepsTies | src/services/api/expenseService.js:10 | inserting into a sorted list puts the new record after every record with its own key, and keeps the order of the others |
| BudgetListView.UsedPercent | src/components/organisms/BudgetList.jsx:25-29 | never above 100; with a positive limit it is 100 exactly when the spend reaches the limit and otherwise spent/limit·100; with a zero limit it is NaN for zero spend and -Infinity for a negative spend |
| BudgetListView.BudgetProgress | src/components/organisms/BudgetList.jsx:22-33 | spent is the sum over the budget's category, remaining is max(limit − spent, 0) and never negative, over budget exactly when spent > limit |
| BudgetListView.ShownBalance | src/components/organisms/BudgetList.jsx:128-129 | never negative; positive and spent − limit when over budget, else limit − spent |
| BudgetListView.ColorMonotone | src/components/organisms/BudgetList.jsx:35-40 | for budgets within their limit, a higher percentage never gives a milder colour |
| BudgetListView.ColorBySpending | src/components/organisms/BudgetList.jsx:22-40 | with a positive limit: red iff spent > limit, yellow iff 80% ≤ spent ≤ limit, blue iff 60% ≤ spent < 80%, accent below 60% |
| BudgetListView.OverBudgetExample | src/components/organisms/BudgetList.jsx:22-40 | Food limit 100 with Food expenses 30 and 90: spent 120, shown 100%, over by 20, red |
| BudgetListView.SearchBudgetsSpec | src/components/organisms/BudgetList.jsx:18-20 | the search keeps, in order, exactly the budgets whose category contains the term ignoring case; an empty term keeps all |
| Text.BlankIffAllWhitespace | src/components/organisms/ExpenseModal.jsx:58 | `!s.trim()` holds exactly when every character is whitespace |
| Text.IncludesAt | src/components/organisms/BudgetList.jsx:19 | `includes` holds exactly when the term occurs at some position |
| DebtListView.FilterDebtsSpec | src/components/organisms/DebtList.jsx:19-26 | an ordered subsequence; a debt is kept iff its name or description matches and the status filter admits it; "paid" keeps only paid, "unpaid" only unpaid, empty filters keep all |
| DebtListView.StatusByDays | src/components/organisms/DebtList.jsx:28-46 | paid gives Paid regardless of due date; unpaid without a due date gives Pending; otherwise Overdue iff the day difference < 0, Due Soon iff 0..7, Pending iff > 7 |
| DebtListView.StatusByMilliseconds | src/components/organisms/DebtList.jsx:33-45 | the same bands in milliseconds: Overdue iff due ≤ now − 1 day, Due Soon iff within (−1 day, 7 days], Pending beyond 7 days |
| DebtListView.StatusExamples | src/components/organisms/DebtList.jsx:28-46 | due in 3 days is Due Soon, due a day ago is Overdue, a paid debt is Paid |
| DebtListView.RowActions | src/components/organisms/DebtList.jsx:115-139 | Mark Paid is offered iff the debt is unpaid; Edit and Delete always |
| ExpenseListView.FilterExpensesSpec | src/components/organisms/ExpenseList.jsx:18-23 | an ordered subsequence; kept iff description or category matches and the category filter admits it; a chosen category is matched exactly; empty filters keep all |
| ExpenseListView.Categories | src/components/organisms/ExpenseList.jsx:25 | one entry per expense, its category |
| ExpenseListView.CategoryChoicesSpec | src/components/organisms/ExpenseList.jsx:25 | a category is offered iff some expense has it; each once; in order of first appearance |
| ExpenseListView.SelectedIsOffered | src/components/organisms/ExpenseList.jsx:21-25 | a selected category that still shows expenses is one of the offered choices |
| Lists.Distinct | src/components/organisms/ExpenseList.jsx:25 | every value of the input appears, nothing else does, and none twice |
| Lists.DistinctFirstAppearanceOrder | src/components/organisms/ExpenseList.jsx:25 | the de-duplicated list keeps values in order of first appearance |
| DashboardStatsView.BudgetUsage | src/components/organisms/DashboardStats.jsx:19 | 0 when the limits total at most 0, otherwise usage · total = monthly · 100 |
| DashboardStatsView.RemainingBudget | src/components/organisms/DashboardStats.jsx:20 | negative exactly when the month overspends the limits; remaining plus monthly is the total |
| DashboardStatsView.UsageAbove | src/components/organisms/DashboardStats.jsx:19 | usage above t iff monthly · 100 > t · total |
| DashboardStatsView.TrendByAmounts | src/components/organisms/DashboardStats.jsx:19-49 | down iff monthly > 80% of the limits, neutral iff in (50%, 80%], up otherwise; always up when the limits are not positive |
| DashboardStatsView.MonthlyWithinTotal | src/components/organisms/DashboardStats.jsx:7-17 | the total is the monthly sum plus the rest; with non-negative amounts 0 ≤ monthly ≤ total |
| DashboardStatsView.DebtsPartition | src/components/organisms/DashboardStats.jsx:8 | the sum over all debts is the unpaid total plus the paid total |
| DashboardStatsView.MarkPaidLowersOutstanding | src/components/organisms/DashboardStats.jsx:8 | marking an unpaid debt paid lowers the outstanding total by exactly its amount |
| DashboardStatsView.AddExpenseRaisesTotal | src/components/organisms/DashboardStats.jsx:7 | adding an expense raises the total by its amount |
| Formatters.DayDiff | src/utils/formatters.js:19 | the least whole number of days at least the millisecond difference |
| Formatters.DayDiffUnique | src/utils/formatters.js:19 | that number is unique |
| Formatters.LabelFor | src/utils/formatters.js:21-27 | the absolute date only for NaN; "In N days" only for N > 1; "N days ago" only for a difference −N < −1 |
| Formatters.LabelRoundTrip | src/utils/formatters.js:21-27 | every integer difference gets a relative label from which it can be read back |
| Formatters.TodayAndTomorrowWindows | src/utils/formatters.js:16-23 | Today iff the date is within the last 24 hours up to now, Tomorrow iff within the next 24 hours, Yesterday iff 24 to 48 hours ago |
| Formatters.CompactCurrency | src/utils/formatters.js:30-38 | M iff ≥ 1,000,000 (checked first), K iff in [1,000, 1,000,000), full otherwise; the scaled value times the unit is the amount |
| Formatters.CompactScaleMonotone | src/utils/formatters.js:30-38 | a larger amount never gets a smaller scale |
| Formatters.CategoryIcon | src/utils/formatters.js:40-53 | a listed category gets its icon, any other the same icon as "Other" |
| Formatters.CategoryColor | src/utils/formatters.js:55-68 | a listed category gets its colour, any other the same colour as "Other" |
| RecentTransactionsView.OpenGap | src/components/organisms/RecentTransactions.jsx:10 | the shifting half of an insertion step: entries before position i that sort strictly after the new one move right by one, the rest stay, and the gap lands after the last entry at least as new |
| RecentTransactionsView.InsertNext | src/components/organisms/RecentTransactions.jsx:10 | one insertion step: the sorted prefix grows by the next element, inserted by date, and the rest of the array is untouched |
| RecentTransactionsView.SortNewestFirst | src/components/organisms/RecentTransactions.jsx:10 | the caller's array is reordered in place into the newest-first stable sort of its old contents |
| RecentTransactionsView.RecentTransactions | src/components/organisms/RecentTransactions.jsx:9-11 | sorts the caller's array in place and returns the first five of the sorted order |
| RecentTransactionsView.RecentSpec | src/components/organisms/RecentTransactions.jsx:9-11 | min(n, 5) rows, newest first, drawn from the input; all of them when n ≤ 5; no omitted expense is newer than a shown one |
| ListUpdates.ReplaceById | src/components/pages/Expenses.jsx:47-49 | same length; entries with the Id become the new record, all others unchanged |
| ListUpdates.RemoveByIdSpec | src/components/pages/Expenses.jsx:57 | an ordered subsequence holding exactly the entries with other Ids |
| ListUpdates.ReplaceByIdIsUpdate | src/components/pages/Expenses.jsx:46-49 | with unique Ids, the page's replace-by-Id is the service's update at the one matching index, and does nothing for an absent Id |
| ListUpdates.RemoveByIdIsSplice | src/components/pages/Expenses.jsx:56-57 | with unique Ids, the page's filter is the service's splice at the matching index |
| ListUpdates.EditKeepsMirror | src/components/pages/Expenses.jsx:45-51 | a page that is a permutation of the store stays one after the same edit on both |
| ListUpdates.DeleteKeepsMirror | src/components/pages/Expenses.jsx:53-63 | a page that is a permutation of the store stays one after the same delete on both |
| ExpensesPage.ExpensesPageState.constructor | src/components/pages/Expenses.jsx:16-20 | empty list, modal closed, no editing target |
| ExpensesPage.ExpensesPageState.Load | src/components/pages/Expenses.jsx:22-34 | the page shows the service's list newest first |
| ExpensesPage.ExpensesPageState.HandleAdd | src/components/pages/Expenses.jsx:40-43 | the store gains the created record at the end, the page at the front; the page total rises by its amount |
| ExpensesPage.ExpensesPageState.HandleEdit | src/components/pages/Expenses.jsx:45-51 | on success the store is updated and every page entry with the edited Id replaced, target cleared; on failure nothing changes |
| ExpensesPage.ExpensesPageState.HandleDelete | src/components/pages/Expenses.jsx:53-63 | something is deleted iff confirmed and stored; then the store is spliced and the page drops every entry with that Id; otherwise both are unchanged |
| ExpensesPage.ExpensesPageState.OpenAdd | src/components/pages/Expenses.jsx:65-68 | open with no target |
| ExpensesPage.ExpensesPageState.OpenEdit | src/components/pages/Expenses.jsx:70-73 | open with the given target |
| ExpensesPage.ExpensesPageState.Close | src/components/pages/Expenses.jsx:75-78 | closed with no target |
| ExpensesPage.ExpensesPageState.Submit | src/components/pages/Expenses.jsx:141 | routes to edit iff a target is set; an add gives the created expense exactly (the patch spread over blanks, the next Id, the stamp), appended to the store and prepended on the page; an edit fails with nothing changed when the target's Id is not stored, otherwise the first stored match becomes its overlay with the patch, the page replaces by Id and the target clears; the modal flag is kept |
| DebtsPage.DebtsPageState.constructor | src/components/pages/Debts.jsx:16-20 | empty list, modal closed, no editing target |
| DebtsPage.DebtsPageState.Load | src/components/pages/Debts.jsx:22-34 | the page shows the service's list newest first |
| DebtsPage.DebtsPageState.HandleAdd | src/components/pages/Debts.jsx:40-43 | the created debt is unpaid, appended to the store and prepended on the page; the unpaid total rises by its amount |
| DebtsPage.DebtsPageState.HandleEdit | src/components/pages/Debts.jsx:45-51 | on success only entries with the edited Id are replaced and the target cleared; on failure nothing changes |
| DebtsPage.DebtsPageState.HandleDelete | src/components/pages/Debts.jsx:53-63 | deleted iff confirmed and stored; then exactly the entries with that Id leave the page |
| DebtsPage.DebtsPageState.OpenAdd | src/components/pages/Debts.jsx:78-81 | open with no target |
| DebtsPage.DebtsPageState.OpenEdit | src/components/pages/Debts.jsx:83-86 | open with the given target |
| DebtsPage.DebtsPageState.Close | src/components/pages/Debts.jsx:88-91 | closed with no target |
| DebtsPage.DebtsPageState.Submit | src/components/pages/Debts.jsx:157 | routes to edit iff a target is set; an add gives the created debt exactly (spread patch, next Id, unpaid, the stamp), appended to the store and prepended on the page; an edit fails with nothing changed when the target's Id is not stored, otherwise the first stored match becomes its overlay with the patch, the page replaces by Id and the target clears; the modal flag is kept |
| DebtsPage.DebtsPageState.MarkPaid | src/components/pages/Debts.jsx:65-76 | fails with no change iff the Id is not stored; otherwise the stored and page entries become the result, which is paid and equals the page's copy with `isPaid` true; the unpaid total falls by that debt's amount |
| BudgetPage.BudgetPageState.constructor | src/components/pages/Budget.jsx:16-22 | empty lists, modal closed, no editing target |
| BudgetPage.BudgetPageState.Load | src/components/pages/Budget.jsx:24-40 | the page shows both services' lists, each newest first |
| BudgetPage.BudgetPageState.HandleAdd | src/components/pages/Budget.jsx:46-49 | the created budget is appended to the store and prepended on the page; the total of limits rises by its limit |
| BudgetPage.BudgetPageState.HandleEdit | src/components/pages/Budget.jsx:51-57 | on success only entries with the edited Id are replaced, the length kept, the target cleared; on failure nothing changes |
| BudgetPage.BudgetPageState.HandleDelete | src/components/pages/Budget.jsx:59-69 | deleted iff confirmed and stored; then exactly the entries with that Id leave the page |
| BudgetPage.BudgetPageState.OpenAdd | src/components/pages/Budget.jsx:71-74 | open with no target |
| BudgetPage.BudgetPageState.OpenEdit | src/components/pages/Budget.jsx:76-79 | open with the given target |
| BudgetPage.BudgetPageState.Close | src/components/pages/Budget.jsx:81-84 | closed with no target |
| BudgetPage.BudgetPageState.Submit | src/components/pages/Budget.jsx:148 | routes to edit iff a target is set; an add gives the created budget exactly (spread patch, next Id, the stamp), appended to the store and prepended on the page; an edit fails with nothing changed when the target's Id is not stored, otherwise the first stored match becomes its overlay with the patch, the page replaces by Id and the target clears; the modal flag and the expenses are kept |
| Forms.ClearOnChange | src/components/organisms/ExpenseModal.jsx:104-110 | the changed field shows no error afterwards; no key is added or dropped, no other message changes, and nothing changes when no error was showing |
| Forms.DatePart | src/components/organisms/ExpenseModal.jsx:34 | the longest prefix without a 'T', ending just before the first 'T' |
| Forms.NoErrorsIffValid | src/components/organisms/ExpenseModal.jsx:67 | when exactly the failing fields carry an entry, the error map is empty iff no field fails, so `Object.keys(newErrors).length === 0` is the form being valid (the same return in DebtModal.jsx:62 and BudgetModal.jsx:60) |
| Forms.DatePartIdempotent | src/components/organisms/ExpenseModal.jsx:34 | a date without 'T' is its own date part |
| ExpenseModalForm.Set | src/components/organisms/ExpenseModal.jsx:99-102 | the named field takes the value and every other field keeps its text |
| ExpenseModalForm.ExpenseModal.constructor | src/components/organisms/ExpenseModal.jsx:18-26 | empty form dated today, no errors, not submitting |
| ExpenseModalForm.ExpenseModal.Reset | src/components/organisms/ExpenseModal.jsx:28-45 | the prefill for the target (or the empty form) with every error cleared |
| ExpenseModalForm.ExpenseModal.HandleChange | src/components/organisms/ExpenseModal.jsx:97-111 | one field changes; only that field's showing error is blanked |
| ExpenseModalForm.ExpenseModal.ValidateForm | src/components/organisms/ExpenseModal.jsx:47-68 | an error is recorded exactly for each field that breaks its rule, with that field's message; the answer is true iff none did |
| ExpenseModalForm.ExpenseModal.BeginSubmit | src/components/organisms/ExpenseModal.jsx:70-84 | an invalid form yields nothing and leaves the submitting flag; a valid one sets it and yields the payload |
| ExpenseModalForm.ExpenseModal.FinishSubmit | src/components/organisms/ExpenseModal.jsx:86-94 | the flag drops either way; the modal closes iff the save succeeded |
| ExpenseModalForm.PayloadWellFormed | src/components/organisms/ExpenseModal.jsx:80-84 | a valid form saves a positive amount, a category and a non-blank description, and keeps the stored Id and createdAt |
| ExpenseModalForm.EmptyFormInvalid | src/components/organisms/ExpenseModal.jsx:37-42 | the add form as it opens fails the amount and category rules |
| ExpenseModalForm.EditRoundTrip | src/components/organisms/ExpenseModal.jsx:28-35 | the prefill of an acceptable expense validates, and saving it unchanged gives the expense back when amount and date convert back |
| DebtModalForm.Set | src/components/organisms/DebtModal.jsx:94-97 | the named field takes the value and every other field keeps its text |
| DebtModalForm.DebtModal.constructor | src/components/organisms/DebtModal.jsx:17-25 | empty form, no errors, not submitting |
| DebtModalForm.DebtModal.Reset | src/components/organisms/DebtModal.jsx:27-44 | the prefill for the target (due date "" when it has none) with every error cleared |
| DebtModalForm.DebtModal.HandleChange | src/components/organisms/DebtModal.jsx:92-106 | one field changes; only that field's showing error is blanked |
| DebtModalForm.DebtModal.ValidateForm | src/components/organisms/DebtModal.jsx:46-63 | an error exactly for a blank name, a rejected amount or a blank description, never for the due date; true iff none |
| DebtModalForm.DebtModal.BeginSubmit | src/components/organisms/DebtModal.jsx:65-79 | an invalid form yields nothing; a valid one sets the flag and yields the payload |
| DebtModalForm.DebtModal.FinishSubmit | src/components/organisms/DebtModal.jsx:81-89 | the flag drops; the modal closes iff the save succeeded |
| DebtModalForm.PayloadWellFormed | src/components/organisms/DebtModal.jsx:46-79 | the due date never blocks saving; a valid form saves a named, described, positive debt whose due date is null iff the field was empty, keeping the paid flag, Id and createdAt |
| DebtModalForm.EditRoundTrip | src/components/organisms/DebtModal.jsx:27-34 | the prefill validates; saved unchanged it gives the debt back, except that a stored empty due date comes back null |
| BudgetModalForm.Set | src/components/organisms/BudgetModal.jsx:91-94 | the named field takes the value and every other field keeps its text |
| BudgetModalForm.BudgetModal.constructor | src/components/organisms/BudgetModal.jsx:18-26 | empty category and limit, period "monthly", no errors |
| BudgetModalForm.BudgetModal.Reset | src/components/organisms/BudgetModal.jsx:27-42 | the prefill for the target or the default form, every error cleared |
| BudgetModalForm.BudgetModal.HandleChange | src/components/organisms/BudgetModal.jsx:89-103 | one field changes; only that field's showing error is blanked |
| BudgetModalForm.BudgetModal.ValidateForm | src/components/organisms/BudgetModal.jsx:44-61 | an error exactly for an empty category, a rejected limit or an empty period; true iff none |
| BudgetModalForm.BudgetModal.BeginSubmit | src/components/organisms/BudgetModal.jsx:63-76 | an invalid form yields nothing; a valid one sets the flag and yields the payload |
| BudgetModalForm.BudgetModal.FinishSubmit | src/components/organisms/BudgetModal.jsx:78-86 | the flag drops; the modal closes iff the save succeeded |
| BudgetModalForm.PeriodDefaults | src/components/organisms/BudgetModal.jsx:18-22 | the add form opens on "monthly", one of the three offered periods; any offered period passes its rule; category and limit start invalid |
| BudgetModalForm.PayloadWellFormed | src/components/organisms/BudgetModal.jsx:73-76 | a valid form saves a categorised budget with a positive limit and a period, keeping Id and createdAt |
| BudgetModalForm.EditRoundTrip | src/components/organisms/BudgetModal.jsx:27-33 | the prefill of an acceptable budget validates and, saved unchanged, gives the budget back |

## Left out

- The simulated latency (`delay`) and the async/await plumbing are left out. Every service call completes at once, returning its value or an `Err`.
- The pages' loading and error flags, toasts and `Promise.all` are left out. `getAll` cannot fail, so the load error path is unreachable and is not modelled.
- `window.confirm` is not modelled. Its answer is the `confirmed` parameter of each delete handler.
- The modals' submit is split around the awaited `onSubmit`:
  - `BeginSubmit` validates and yields the payload;
  - `FinishSubmit` takes whether the save succeeded.

  The page call in between is made by the caller. The toasts and `onClose` are not modelled.
- Text produced by `Intl.NumberFormat`, date-fns `format` and `toFixed` is not modelled. Only the branch taken and the value formatted are.
- Date parsing, the clock, `toISOString` and `Number.toString` are parameters (`instant`, `calendar`, `now`, `today`, the stamp, `toIso`, `show`).
  - A `toISOString` that throws on an invalid date is not modelled.
  - Neither is a sort comparator that yields NaN for an invalid date.
- String-to-number conversion is one abstract `parse` that returns `None` for NaN. `isNaN` and `parseFloat` are taken to agree. They differ only on inputs such as whitespace-only or hexadecimal text.
- Amounts are mathematical reals, so there is no floating-point rounding in the sums.
- Lower-casing covers ASCII letters only (`Text.LowerChar`). Unicode case mapping is not modelled.
- The category lookups index a JavaScript object. A name such as "constructor" would find an inherited property; the model's tables hold only the nine listed categories.
- Fields absent from a create input default to empty text, 0, `false` or `None` (the `Blank*` records). JavaScript would store `undefined`.
- Marking paid a debt that is absent from the page sends `{ isPaid: true }` alone. In JavaScript the spread of `undefined` adds nothing, which gives the same result.
- The Dashboard page, the presentation components, and the static category list in `CategorySelect` carry no logic beyond rendering. They are not part of this model.
- The mock JSON fixtures are not part of this model. Each service is built from an arbitrary initial sequence.
