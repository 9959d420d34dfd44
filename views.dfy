/**
 * The two lists the component derives on every render: sortedExpenses, a
 * stable sort of a copy of the store by the selected comparator, and
 * filteredExpenses, the records of the sorted list that pass the filter.
 */
module Views {
  import opened Calendar
  import opened Expenses
  import opened Sorting

  /**
   * The key the comparator subtracts. Sorting.Insert puts x before y when
   * key(y) - key(x) <= 0, which by Expenses.Compare is Compare(opt, x, y) <= 0.
   */
  function KeyOf(opt: SortOption): Expense -> real {
    e => Key(opt, e)
  }

  /** sortedExpenses: [...expenses].sort(comparator). */
  function SortView(opt: SortOption, s: seq<Expense>): seq<Expense> {
    Sort(KeyOf(opt), s)
  }

  /** The filter callback: 'all' passes everything, otherwise the type must match. */
  predicate Passes(opt: FilterOption, e: Expense) {
    match opt
    case All => true
    case OnlyKind(k) => e.kind == k
  }

  function PassesOf(opt: FilterOption): Expense -> bool {
    e => Passes(opt, e)
  }

  /** filteredExpenses: the sorted list filtered by the callback. */
  function FilterView(opt: FilterOption, s: seq<Expense>): seq<Expense> {
    Filter(PassesOf(opt), s)
  }

  /** The list the component shows. */
  function Project(sortOpt: SortOption, filterOpt: FilterOption, s: seq<Expense>): seq<Expense> {
    FilterView(filterOpt, SortView(sortOpt, s))
  }

  /**
   * The sorted view is a permutation of the store, stable for equal keys,
   * and in the order the option asks for: newest day first, largest amount
   * first, or the store's own order.
   */
  lemma SortViewCorrect(opt: SortOption, s: seq<Expense>)
    ensures multiset(SortView(opt, s)) == multiset(s)
    ensures Stable(KeyOf(opt), SortView(opt, s), s)
    ensures opt == ByDate ==> forall i, j :: 0 <= i < j < |SortView(opt, s)| ==>
      !Before(SortView(opt, s)[i].date, SortView(opt, s)[j].date)
    ensures opt == ByAmount ==> forall i, j :: 0 <= i < j < |SortView(opt, s)| ==>
      SortView(opt, s)[j].amount <= SortView(opt, s)[i].amount
    ensures opt == Unordered ==> SortView(opt, s) == s
  {
    var r := SortView(opt, s);
    SortCorrect(KeyOf(opt), s);
    if opt == ByDate {
      forall i, j | 0 <= i < j < |r|
        ensures !Before(r[i].date, r[j].date)
      {
        assert Key(opt, r[j]) <= Key(opt, r[i]);
        TimeValueOrder(r[i].date, r[j].date);
      }
    } else if opt == ByAmount {
      forall i, j | 0 <= i < j < |r|
        ensures r[j].amount <= r[i].amount
      {
        assert Key(opt, r[j]) <= Key(opt, r[i]);
      }
    } else if opt == Unordered {
      SortOrderedIsIdentity(KeyOf(opt), s);
    }
  }

  /** Records that share a day (under 'date') or an amount (under 'amount') share a key. */
  lemma SameKeyMeansEqualField(opt: SortOption, a: Expense, b: Expense)
    ensures opt == ByDate ==> (Key(opt, a) == Key(opt, b) <==> a.date == b.date)
    ensures opt == ByAmount ==> (Key(opt, a) == Key(opt, b) <==> a.amount == b.amount)
  {
    TimeValueOrder(a.date, b.date);
  }

  /**
   * The order and the ties Sorting uses are the comparator's: a list is
   * ordered by the key exactly when the comparator never asks to swap a
   * pair, and two records tie exactly when the comparator returns 0.
   */
  lemma ComparatorOrder(opt: SortOption, r: seq<Expense>)
    ensures Ordered(KeyOf(opt), r) <==>
              forall i, j :: 0 <= i < j < |r| ==> Compare(opt, r[i], r[j]) <= 0.0
    ensures forall a, b :: Compare(opt, a, b) == 0.0 <==> KeyOf(opt)(a) == KeyOf(opt)(b)
  {
  }

  /**
   * Any stable sort with the component's comparator produces SortView: the
   * engine's result never has the comparator positive on an earlier and a
   * later record, and keeps the records the comparator ties in store order.
   */
  lemma EngineSortIsSortView(opt: SortOption, s: seq<Expense>, r: seq<Expense>)
    requires forall i, j :: 0 <= i < j < |r| ==> Compare(opt, r[i], r[j]) <= 0.0
    requires Stable(KeyOf(opt), r, s)
    ensures r == SortView(opt, s)
  {
    ComparatorOrder(opt, r);
    SortIsTheStableSort(KeyOf(opt), s, r);
  }

  /** Sorting twice with the same option is sorting once. */
  lemma SortViewIdempotent(opt: SortOption, s: seq<Expense>)
    ensures SortView(opt, SortView(opt, s)) == SortView(opt, s)
  {
    SortCorrect(KeyOf(opt), s);
    SortOrderedIsIdentity(KeyOf(opt), SortView(opt, s));
  }

  lemma {:induction false} FilterAllKeeps(s: seq<Expense>)
    ensures FilterView(All, s) == s
  {
    if s != [] {
      FilterAllKeeps(s[1..]);
      assert [s[0]] + s[1..] == s;
    }
  }

  /**
   * 'all' keeps the list; a kind keeps every record of that type as often
   * as the list holds it and no other record; either way in list order.
   */
  lemma FilterViewCorrect(opt: FilterOption, s: seq<Expense>)
    ensures opt == All ==> FilterView(opt, s) == s
    ensures forall x ::
              multiset(FilterView(opt, s))[x] == if Passes(opt, x) then multiset(s)[x] else 0
    ensures IsSubsequence(FilterView(opt, s), s)
  {
    FilterExact(PassesOf(opt), s);
    if opt == All {
      FilterAllKeeps(s);
    }
  }

  /** Filtering twice with the same option is filtering once. */
  lemma FilterViewIdempotent(opt: FilterOption, s: seq<Expense>)
    ensures FilterView(opt, FilterView(opt, s)) == FilterView(opt, s)
  {
    FilterIdempotent(PassesOf(opt), s);
  }

  /** Sorting then filtering is filtering then sorting. */
  lemma ProjectCommutes(sortOpt: SortOption, filterOpt: FilterOption, s: seq<Expense>)
    ensures Project(sortOpt, filterOpt, s) == SortView(sortOpt, FilterView(filterOpt, s))
  {
    FilterSortCommute(KeyOf(sortOpt), PassesOf(filterOpt), s);
  }

  /**
   * The shown list is the stable sort of the matching records, and
   * projecting it again with the same options changes nothing.
   */
  lemma ProjectIdempotent(sortOpt: SortOption, filterOpt: FilterOption, s: seq<Expense>)
    ensures Ordered(KeyOf(sortOpt), Project(sortOpt, filterOpt, s))
    ensures Stable(KeyOf(sortOpt), Project(sortOpt, filterOpt, s), FilterView(filterOpt, s))
    ensures Project(sortOpt, filterOpt, Project(sortOpt, filterOpt, s)) == Project(sortOpt, filterOpt, s)
  {
    var p := Project(sortOpt, filterOpt, s);
    ProjectCommutes(sortOpt, filterOpt, s);
    SortCorrect(KeyOf(sortOpt), FilterView(filterOpt, s));
    SortOrderedIsIdentity(KeyOf(sortOpt), p);
    FilterViewIdempotent(filterOpt, SortView(sortOpt, s));
  }

  /**
   * "coffee" (12.5, debit) then "rent" (40, credit) on the same day: by
   * amount rent comes first, by date the insertion order stays, and the
   * 'credit' filter shows rent alone.
   */
  lemma SameDayScenario(coffee: Expense, rent: Expense)
    requires coffee == Expense(12.5, Debit, "coffee", coffee.date)
    requires rent == Expense(40.0, Credit, "rent", coffee.date)
    ensures SortView(ByAmount, [coffee, rent]) == [rent, coffee]
    ensures SortView(ByDate, [coffee, rent]) == [coffee, rent]
    ensures Project(ByAmount, OnlyKind(Credit), [coffee, rent]) == [rent]
  {
    assert [coffee, rent][1..] == [rent];
    assert [rent][1..] == [] && [coffee][1..] == [];
    forall opt: SortOption
      ensures SortView(opt, [coffee, rent]) == Insert(KeyOf(opt), coffee, [rent])
    {
      assert Sort(KeyOf(opt), [rent]) == Insert(KeyOf(opt), rent, Sort(KeyOf(opt), []));
      assert [rent] + [] == [rent];
    }
    var byAmount, byDate := KeyOf(ByAmount), KeyOf(ByDate);
    assert byAmount(rent) - byAmount(coffee) > 0.0;
    assert Insert(byAmount, coffee, [rent]) == [rent] + Insert(byAmount, coffee, []);
    assert byDate(rent) - byDate(coffee) == 0.0;
    assert [rent, coffee][1..] == [coffee];
    assert Filter(PassesOf(OnlyKind(Credit)), [coffee]) == Filter(PassesOf(OnlyKind(Credit)), []);
  }
}
