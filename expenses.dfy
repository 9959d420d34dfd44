/**
 * The expense record, the form's validation guard, and the sort comparator
 * of the ExpenseTracker component.
 */
module Expenses {
  import opened Wrappers
  import opened Calendar

  /** The two values the type radio group produces. */
  datatype Kind = Debit | Credit

  /** The string the radio group stores for a kind. */
  function KindName(k: Kind): string {
    match k
    case Debit => "debit"
    case Credit => "credit"
  }

  /** One logged transaction; `date` is the day whose ISO text the source stores. */
  datatype Expense = Expense(amount: real, kind: Kind, description: string, date: Day)

  /** The sort select: 'date', 'amount', or any other value. */
  datatype SortOption = ByDate | ByAmount | Unordered

  /** The filter select: 'all', or one of the kind names. */
  datatype FilterOption = All | OnlyKind(kind: Kind)

  /**
   * The guard of the add handler: the amount text is non-empty and
   * parseFloat gives a number (not NaN) that is greater than zero.
   */
  predicate AmountAccepted(amountText: string, parseFloat: string -> Option<real>) {
    amountText != "" && parseFloat(amountText).Some? && parseFloat(amountText).value > 0.0
  }

  /** The record the add handler builds, or None when the guard rejects the amount. */
  function NewExpense(amountText: string, parseFloat: string -> Option<real>,
                      kind: Kind, description: string, today: Day): (r: Option<Expense>)
    ensures r.Some? <==> AmountAccepted(amountText, parseFloat)
    ensures r.Some? ==> r.value.amount > 0.0 && r.value.amount == parseFloat(amountText).value
    ensures r.Some? ==> r.value.kind == kind && r.value.description == description && r.value.date == today
  {
    if amountText == "" || parseFloat(amountText).None? || parseFloat(amountText).value <= 0.0 then
      None
    else
      Some(Expense(parseFloat(amountText).value, kind, description, today))
  }

  /** The store invariant: every stored amount is positive. */
  predicate AllPositive(s: seq<Expense>) {
    forall i :: 0 <= i < |s| ==> s[i].amount > 0.0
  }

  /** The value the comparator subtracts: later day, larger amount, or nothing. */
  function Key(opt: SortOption, e: Expense): real {
    match opt
    case ByDate => TimeValue(e.date) as real
    case ByAmount => e.amount
    case Unordered => 0.0
  }

  /**
   * The comparator passed to Array.prototype.sort: negative when a goes
   * first, positive when b goes first.
   */
  function Compare(opt: SortOption, a: Expense, b: Expense): (r: real)
    ensures r == Key(opt, b) - Key(opt, a)
  {
    if opt == ByDate then
      (TimeValue(b.date) - TimeValue(a.date)) as real
    else if opt == ByAmount then
      b.amount - a.amount
    else
      0.0
  }

  /** Under 'date', a record goes first exactly when its day is later. */
  lemma CompareByDate(a: Expense, b: Expense)
    ensures Compare(ByDate, a, b) < 0.0 <==> Before(b.date, a.date)
    ensures Compare(ByDate, a, b) == 0.0 <==> a.date == b.date
  {
    TimeValueOrder(b.date, a.date);
  }
}
