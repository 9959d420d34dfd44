/**
 * The ExpenseTracker component's state: the six values it keeps with
 * useState, the change handlers of its inputs, the add handler, the two
 * derived lists and the export text.
 */
module Tracker {
  import opened Wrappers
  import opened Calendar
  import opened Expenses
  import opened Sorting
  import opened Views
  import opened Export

  class ExpenseTracker {
    var expenses: seq<Expense>
    var amount: string
    var kind: Kind
    var description: string
    var sortOption: SortOption
    var filterOption: FilterOption

    /** Every stored amount is positive. */
    predicate Valid()
      reads this
    {
      AllPositive(expenses)
    }

    /** The initial state: no records, empty inputs, 'debit', sorted by 'date', filter 'all'. */
    constructor ()
      ensures Valid()
      ensures expenses == [] && amount == "" && kind == Debit && description == ""
      ensures sortOption == ByDate && filterOption == All
    {
      expenses := [];
      amount := "";
      kind := Debit;
      description := "";
      sortOption := ByDate;
      filterOption := All;
    }

    /** The amount input's change handler. */
    method SetAmount(text: string)
      requires Valid()
      modifies this`amount
      ensures Valid()
      ensures amount == text
    {
      amount := text;
    }

    /** The type radio group's change handler. */
    method SetKind(k: Kind)
      requires Valid()
      modifies this`kind
      ensures Valid()
      ensures kind == k
    {
      kind := k;
    }

    /** The description text area's change handler. */
    method SetDescription(text: string)
      requires Valid()
      modifies this`description
      ensures Valid()
      ensures description == text
    {
      description := text;
    }

    /** The sort select's change handler. */
    method SetSortOption(opt: SortOption)
      requires Valid()
      modifies this`sortOption
      ensures Valid()
      ensures sortOption == opt
    {
      sortOption := opt;
    }

    /** The filter select's change handler. */
    method SetFilterOption(opt: FilterOption)
      requires Valid()
      modifies this`filterOption
      ensures Valid()
      ensures filterOption == opt
    {
      filterOption := opt;
    }

    /**
     * The add handler. A rejected amount changes nothing (the source shows
     * a warning); an accepted one appends one record dated today and clears
     * the amount and description inputs, leaving the type selected. The
     * result says which of the two alerts the source shows.
     */
    method AddExpense(parseFloat: string -> Option<real>, today: Day) returns (added: bool)
      requires Valid()
      modifies this`expenses, this`amount, this`description
      ensures Valid()
      ensures added == AmountAccepted(old(amount), parseFloat)
      ensures added ==>
        expenses == old(expenses) + [NewExpense(old(amount), parseFloat, kind, old(description), today).value]
      ensures added ==> amount == "" && description == ""
      ensures !added ==> expenses == old(expenses) && amount == old(amount) && description == old(description)
      ensures kind == old(kind) && sortOption == old(sortOption) && filterOption == old(filterOption)
    {
      var newExpense := NewExpense(amount, parseFloat, kind, description, today);
      if newExpense.None? {
        return false;
      }
      expenses := expenses + [newExpense.value];
      amount := "";
      description := "";
      added := true;
    }

    /**
     * sortedExpenses: a reordering of the store, newest day first or largest
     * amount first, ties in store order; the store itself keeps its order.
     */
    function SortedExpenses(): (r: seq<Expense>)
      reads this
      ensures multiset(r) == multiset(expenses)
      ensures Stable(KeyOf(sortOption), r, expenses)
      ensures sortOption == ByDate ==>
                forall i, j :: 0 <= i < j < |r| ==> !Before(r[i].date, r[j].date)
      ensures sortOption == ByAmount ==>
                forall i, j :: 0 <= i < j < |r| ==> r[j].amount <= r[i].amount
      ensures sortOption == Unordered ==> r == expenses
    {
      SortViewCorrect(sortOption, expenses);
      SortView(sortOption, expenses)
    }

    /**
     * filteredExpenses: the sorted list with exactly the stored records
     * that pass the filter, each as often as the store holds it.
     */
    function FilteredExpenses(): (r: seq<Expense>)
      reads this
      ensures IsSubsequence(r, SortedExpenses())
      ensures forall x ::
                multiset(r)[x] == if Passes(filterOption, x) then multiset(expenses)[x] else 0
    {
      FilterViewCorrect(filterOption, SortedExpenses());
      FilterView(filterOption, SortedExpenses())
    }

    /** The export handler's text: every stored record in insertion order, not the filtered list. */
    method HandleExport() returns (text: string)
      ensures text == ExportText(expenses)
    {
      text := ExportText(expenses);
    }
  }

  /**
   * Two rejected amounts leave the store empty; then "coffee" (12.5, debit)
   * and "rent" (40, credit) are added on the same day.
   */
  method AddScenario(today: Day)
  {
    var parseFloat := (s: string) =>
      if s == "12.5" then Some(12.5) else if s == "40" then Some(40.0)
      else if s == "-5" then Some(-5.0) else None;
    var t := new ExpenseTracker();
    t.SetAmount("-5");
    var added := t.AddExpense(parseFloat, today);
    assert !added && t.expenses == [];
    t.SetAmount("abc");
    added := t.AddExpense(parseFloat, today);
    assert !added && t.expenses == [] && t.amount == "abc";

    t.SetAmount("12.5");
    t.SetDescription("coffee");
    added := t.AddExpense(parseFloat, today);
    t.SetAmount("40");
    t.SetKind(Credit);
    t.SetDescription("rent");
    added := t.AddExpense(parseFloat, today);
    assert t.expenses == [Expense(12.5, Debit, "coffee", today), Expense(40.0, Credit, "rent", today)];
    assert t.amount == "" && t.description == "" && t.kind == Credit;
  }
}
