# Expense tracker: a Dafny model of the ExpenseTracker component

The ExpenseTracker component (`src/App.tsx`) is a single-page form. A user types an amount,
picks debit or credit, writes a description and adds the entry. The component keeps the
entries in memory and lists them, sorted by date or amount and filtered by type. It can
also export them as plain text. This project models the component's state and its derived
views, and proves what they promise:

- `Tracker.ExpenseTracker` is a class. Its fields are the six values the component keeps
  with `useState`: `expenses`, `amount`, `kind` (the source's `type`), `description`,
  `sortOption` and `filterOption`. It has one method per state-changing handler.
  `AddExpense` is the add handler: it runs the guard, appends the record and clears the
  inputs. The class invariant `Valid()` says every stored amount is positive.
- `Views` holds `sortedExpenses` and `filteredExpenses`. Both are pure functions of the
  state. The sort is an explicit insertion sort (`Sorting.Sort`) keyed by the value the
  comparator subtracts. The engine's `Array.prototype.sort` must be stable (ECMA-262, 10th
  edition, section 22.1.3.27), and `Sorting.StableSortUnique` proves that ordering plus
  stability fixes the result. So any conforming engine sort gives exactly the modelled list.
- `Export` holds the export text: one line per record, `<date> - <TYPE>: $<amount> - <description>`,
  joined with `"\n"`. It also has a line parser, used to prove that the text loses nothing
  beyond rounding to hundredths.
- `Decimal` models `Number.prototype.toFixed(2)` (ECMA-262, 10th edition, section 20.1.3.3)
  on exact values. `Calendar` models the `YYYY-MM-DD` text of `toISOString()` and the time
  value `new Date(s).getTime()` gives for it. The sort's date comparator subtracts these
  time values.

Amounts are exact `real`s. `parseFloat` is a parameter of type `string -> Option<real>`,
where `None` stands for NaN. The current day is a parameter of `AddExpense`.

Two facts about the code shape the export model:

- The export maps over `expenses` (src/App.tsx:38), the raw store in insertion order, not
  over `filteredExpenses`. `ExpenseTracker.HandleExport` and `Export.ExportText` do the same.
- The description field is a text area, so a description can hold a line break. The export
  of a non-empty store has one line per record exactly when no description does
  (`Export.OneLinePerRecord`); otherwise the export has more lines than the store has
  records (`Export.MultilineDescription`).

The definitions that transcribe source expressions are `Expenses.NewExpense` (the guard
and the new record, src/App.tsx:19-29), `Expenses.Compare` (the comparator,
src/App.tsx:51-57), `Sorting.Sort` with `Views.SortView` (the sort call, src/App.tsx:50),
`Views.Passes` with `Views.FilterView` (the filter callback, src/App.tsx:60-63),
`Export.Line` and `Export.ExportText` (the export template and join, src/App.tsx:38),
`Decimal.Fixed2` (`toFixed(2)`), `Calendar.DateText` (the date prefix of `toISOString()`,
src/App.tsx:28) and `Calendar.TimeValue` (`getTime()`, src/App.tsx:52). The rows below name
the members whose contracts state what these definitions mean.

## Model

| member | source | states |
|---|---|---|
| Tracker.ExpenseTracker.constructor | src/App.tsx:11-16 | the initial state: empty store, empty amount and description, type debit, sort by date, filter all; the invariant holds |
| Tracker.ExpenseTracker.SetAmount | src/App.tsx:84 | the amount input's handler replaces the amount text and nothing else; the invariant holds |
| Tracker.ExpenseTracker.SetKind | src/App.tsx:90-99 | the radio group's handler replaces the type and nothing else; the invariant holds |
| Tracker.ExpenseTracker.SetDescription | src/App.tsx:106 | the text area's handler replaces the description and nothing else; the invariant holds |
| Tracker.ExpenseTracker.SetSortOption | src/App.tsx:125 | the sort select's handler replaces the sort option and nothing else; the invariant holds |
| Tracker.ExpenseTracker.SetFilterOption | src/App.tsx:137 | the filter select's handler replaces the filter option and nothing else; the invariant holds |
| Tracker.ExpenseTracker.AddExpense | src/App.tsx:18-35 | adding succeeds exactly when the amount text is non-empty and parses to a number > 0; a rejected add leaves the store, amount and description unchanged; a successful add appends exactly one record (parsed amount, current type, description, today) at the end, keeps earlier records, and clears amount and description; type, sort and filter options never change; every stored amount stays > 0 |
| Tracker.ExpenseTracker.SortedExpenses | src/App.tsx:50-58 | the sorted view is a permutation of the store and keeps records with equal keys in store order; under 'date' no record is followed by a later day, under 'amount' amounts never increase, under any other option it is the store |
| Tracker.ExpenseTracker.FilteredExpenses | src/App.tsx:60-63 | the shown list is a subsequence of the sorted view and holds every stored record that passes the filter, as often as the store does, and no other |
| Tracker.ExpenseTracker.HandleExport | src/App.tsx:37-38 | the exported text is built from the whole store in insertion order, not from the filtered view |
| Expenses.NewExpense | src/App.tsx:19-29 | the guard rejects an empty, unparsable (NaN) or non-positive amount; an accepted amount gives a record with that amount (> 0), the selected type, the description and today's date |
| Expenses.Compare | src/App.tsx:50-58 | the comparator returns key(b) - key(a) for the selected option: time value under 'date', amount under 'amount', 0 for any other option |
| Expenses.CompareByDate | src/App.tsx:51-52 | under 'date', a goes before b exactly when a's day is later in the calendar, and the comparator returns 0 exactly when the days are equal |
| Views.SortViewCorrect | src/App.tsx:50-58 | the sorted view is a permutation of the store and is stable; under 'date' no record is followed by a later day (newest first); under 'amount' amounts never increase; under any other option the view equals the store |
| Views.SameKeyMeansEqualField | src/App.tsx:51-54 | under 'date' two records tie exactly when their days are equal; under 'amount' exactly when their amounts are equal |
| Views.ComparatorOrder | src/App.tsx:50-58 | a list is ordered by the sort key exactly when the comparator is never positive on an earlier and a later record, and the comparator returns 0 exactly when two keys are equal |
| Views.EngineSortIsSortView | src/App.tsx:50 | any sort of the store that the comparator never asks to swap and that keeps tied records in store order equals the modelled sorted view |
| Views.SortViewIdempotent | src/App.tsx:50-58 | sorting the sorted view again with the same option changes nothing |
| Views.FilterAllKeeps | src/App.tsx:61 | the filter 'all' keeps the list unchanged |
| Views.FilterViewCorrect | src/App.tsx:60-63 | 'all' keeps the list; otherwise the result keeps every record of the selected type as often as the list holds it, no other record, in list order |
| Views.FilterViewIdempotent | src/App.tsx:60-63 | filtering twice with the same option is filtering once |
| Views.ProjectCommutes | src/App.tsx:50-63 | filtering the sorted view gives the same list as sorting the filtered store |
| Views.ProjectIdempotent | src/App.tsx:50-63 | the shown list is ordered and is the stable sort of the matching records; projecting it again with the same options changes nothing |
| Views.SameDayScenario | src/App.tsx:50-63 | for coffee (12.5, debit) then rent (40, credit) on one day: by amount rent comes first, by date insertion order stays, and the credit filter shows rent alone |
| Sorting.SortCorrect | src/App.tsx:50-58 | the insertion sort is ordered by key (largest first), is a permutation of its input, and keeps each key's records in input order |
| Sorting.StableSortUnique | src/App.tsx:50 | two lists that are ordered by the key and have the same records for every key, in the same order, are equal |
| Sorting.SortIsTheStableSort | src/App.tsx:50 | every ordered, stable rearrangement of a list is the insertion sort of that list |
| Sorting.SortOrderedIsIdentity | src/App.tsx:50-58 | sorting a list that is already ordered leaves it unchanged |
| Sorting.FilterExact | src/App.tsx:60-63 | the filter keeps every accepted element as often as the input holds it, no other element, and the input's order |
| Sorting.FilterIdempotent | src/App.tsx:60-63 | filtering twice with one predicate is filtering once |
| Sorting.FilterSortCommute | src/App.tsx:50-63 | filtering a sorted list is sorting the filtered list |
| Export.TypeLabel | src/App.tsx:38 | the upper-cased type is "DEBIT" for debit and "CREDIT" for credit |
| Export.ExportEmpty | src/App.tsx:38 | the export text is empty exactly when the store is |
| Export.ExportAppend | src/App.tsx:38 | after appending a record, the export gains that record's line at its end, after a line break when the store was non-empty |
| Export.LineBreaks | src/App.tsx:38 | an export line contains a line break exactly when the record's description does |
| Export.SplitJoin | src/App.tsx:38 | splitting a join on its separator gives the parts back when no part contains the separator |
| Export.LineRoundTrip | src/App.tsx:38 | an export line reads back as the record's day, type, amount in hundredths as shown, and description |
| Export.ExportRoundTrip | src/App.tsx:38 | with no line break in any description, the export splits into exactly one line per stored record, in store order, and each line reads back as that record |
| Export.MultilineDescription | src/App.tsx:38 | if any record of the store has a description holding a line break, the export splits into more lines than the store has records |
| Export.OneLinePerRecord | src/App.tsx:38 | the export of a non-empty store splits into exactly one line per record if and only if no description holds a line break |
| Export.ExportPair | src/App.tsx:38 | the export of two records is the first line, one line break, and the second line |
| Export.ScenarioExport | src/App.tsx:38 | for coffee (12.5, debit) then rent (40, credit) on day d the export is "d - DEBIT: $12.50 - coffee", a line break, "d - CREDIT: $40.00 - rent" |
| Export.Fixed2Examples | src/App.tsx:38 | toFixed(2) shows 12.5 as "12.50" and 40 as "40.00" |
| Decimal.RoundCents | src/App.tsx:38 | the hundredths toFixed(2) chooses for x >= 0: the nearest integer to 100x, the larger one on a tie |
| Decimal.SignedCents | src/App.tsx:38 | the signed hundredths shown are within half a hundredth of the value |
| Decimal.Fixed2RoundTrip | src/App.tsx:38 | the toFixed(2) text reads back as the signed number of hundredths, so it loses only the rounding |
| Decimal.NatTextValue | src/App.tsx:38 | the integer part of the amount text, read back, is the integer |
| Decimal.PadTextValue | src/App.tsx:38 | a zero-padded field (the year, month or day of the date, or the two decimals of the amount), read back, is the number |
| Calendar.DayNumberIncreasing | src/App.tsx:52 | a later calendar day has a larger day count from 0000-01-01 |
| Calendar.TimeValueOrder | src/App.tsx:52 | the time values of two days compare as the days do in the calendar, and are equal only for the same day |
| Calendar.DateTextRoundTrip | src/App.tsx:28 | the stored "YYYY-MM-DD" text of a day reads back as that day |

## Left out

- Rendering (src/App.tsx:65-165) and the UI component imports (src/App.tsx:2-8) are presentation only.
- The `alert` calls (src/App.tsx:20,34) are left out. `AddExpense` returns which of the two alerts the source would show.
- The download is left out: the `Blob`, object URL, anchor, click and removal (src/App.tsx:39-47) are browser I/O. `HandleExport` returns the text that would be downloaded.
- Reading the clock (src/App.tsx:28) is left out: today's day is a parameter of `AddExpense`.
- `parseFloat` and `isNaN` are not modelled in detail: `parseFloat` is a parameter that returns `None` for NaN. The model cannot represent Infinity (from `"Infinity"` or `"1e999"`), which the guard accepts and `toFixed` prints as "Infinity".
- Decimal.Fixed2: rounds the exact value. The source rounds the binary double (so `(1.005).toFixed(2)` is "1.00"). The exponential form that `toFixed` uses for magnitudes of 10^21 or more is not modelled.
- Export.ToUpper: maps ASCII letters only. That is enough here, because it is applied only to the radio values "debit" and "credit".
- Calendar.DateText: covers years 0 to 9999, the range `toISOString` prints as four digits. Clock dates outside that range are not modelled.
- Sort and filter options are datatypes. `Unordered` stands for any sort string other than 'date' and 'amount'. A filter string other than 'all', 'debit' or 'credit' cannot come from the select and is not modelled.
- React's re-render mechanics and `useState` closures are not modelled. The state is plain fields updated by methods, and the views are functions of those fields.
