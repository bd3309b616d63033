/**
 * ExpenseList: the search-and-category filter and the category choices
 * offered by the filter's drop-down.
 */
module ExpenseListView {
  import opened Entities
  import Lists
  import Text

  /** matchesSearch: the description or the category contains the term, ignoring case. */
  predicate MatchesSearch(e: Expense, term: string) {
    Text.ContainsIgnoringCase(e.description, term) || Text.ContainsIgnoringCase(e.category, term)
  }

  /** matchesCategory: "" is every category; otherwise an exact, case-sensitive match. */
  predicate MatchesCategory(e: Expense, selected: string) {
    selected == "" || e.category == selected
  }

  function FilterExpenses(expenses: seq<Expense>, term: string, selected: string): seq<Expense> {
    Lists.Filter(expenses, (e: Expense) => MatchesSearch(e, term) && MatchesCategory(e, selected))
  }

  /** filteredExpenses: the ordered subsequence of the expenses that pass both tests. */
  lemma {:induction false} FilterExpensesSpec(expenses: seq<Expense>, term: string, selected: string)
    ensures Lists.IsSubseq(FilterExpenses(expenses, term, selected), expenses)
    ensures forall e :: e in FilterExpenses(expenses, term, selected) <==>
      e in expenses && MatchesSearch(e, term) && MatchesCategory(e, selected)
    ensures selected != "" ==> forall e :: e in FilterExpenses(expenses, term, selected) ==> e.category == selected
    ensures term == "" && selected == "" ==> FilterExpenses(expenses, term, selected) == expenses
  {
    var p := (e: Expense) => MatchesSearch(e, term) && MatchesCategory(e, selected);
    Lists.FilterIsSubseq(expenses, p);
    if term == "" && selected == "" {
      assert Text.Lower(term) == "";
      Lists.FilterAll(expenses, p);
    }
  }

  /** `expenses.map(e => e.category)`. */
  function Categories(expenses: seq<Expense>): (r: seq<string>)
    ensures |r| == |expenses|
    ensures forall i :: 0 <= i < |r| ==> r[i] == expenses[i].category
  {
    seq(|expenses|, i requires 0 <= i < |expenses| => expenses[i].category)
  }

  /** `[...new Set(expenses.map(e => e.category))]`. */
  function CategoryChoices(expenses: seq<Expense>): seq<string> {
    Lists.Distinct(Categories(expenses))
  }

  /**
   * Every category that occurs is offered exactly once, nothing else is
   * offered, and the choices appear in the order their first expense does.
   */
  lemma CategoryChoicesSpec(expenses: seq<Expense>)
    ensures forall c :: c in CategoryChoices(expenses) <==> exists i :: 0 <= i < |expenses| && expenses[i].category == c
    ensures forall i, j :: 0 <= i < j < |CategoryChoices(expenses)| ==> CategoryChoices(expenses)[i] != CategoryChoices(expenses)[j]
    ensures forall i, j :: 0 <= i < j < |CategoryChoices(expenses)| ==>
      Lists.FirstIndex(Categories(expenses), CategoryChoices(expenses)[i])
      < Lists.FirstIndex(Categories(expenses), CategoryChoices(expenses)[j])
  {
    var cats := Categories(expenses);
    forall c ensures c in CategoryChoices(expenses) <==> exists i :: 0 <= i < |expenses| && expenses[i].category == c {
      if c in CategoryChoices(expenses) {
        var k :| 0 <= k < |cats| && cats[k] == c;
        assert expenses[k].category == c;
      }
      if exists i :: 0 <= i < |expenses| && expenses[i].category == c {
        var i :| 0 <= i < |expenses| && expenses[i].category == c;
        assert cats[i] == c;
      }
    }
    forall i, j | 0 <= i < j < |CategoryChoices(expenses)|
      ensures Lists.FirstIndex(cats, CategoryChoices(expenses)[i]) < Lists.FirstIndex(cats, CategoryChoices(expenses)[j])
    {
      Lists.DistinctFirstAppearanceOrder(cats, i, j);
    }
  }

  /** Every category a filtered expense carries is among the choices, so the drop-down can reach it. */
  lemma SelectedIsOffered(expenses: seq<Expense>, term: string, selected: string)
    requires selected != ""
    requires FilterExpenses(expenses, term, selected) != []
    ensures selected in CategoryChoices(expenses)
  {
    var kept := FilterExpenses(expenses, term, selected);
    assert kept[0] in expenses && kept[0].category == selected;
    var i :| 0 <= i < |expenses| && expenses[i] == kept[0];
    assert Categories(expenses)[i] == selected;
  }
}
