# Expense manager: the transaction filter and aggregation engine

The expense manager is a small web app. Users record income and expenses
in a document store and read them back through a dashboard. This project
models the logic those screens run over the user's records, and proves
what that logic promises:

- **Dashboard** (`Dashboard`). The snapshot of records is sorted newest
  first. A month and a category can be selected; an empty selection
  means "all". The income, expense and balance cards are computed from
  the records that pass. The CSV text of the export is built from them.
- **Goals** (`Budgets`). For each goal: the expense spent in its
  category, the share of the limit used (capped at 100%), the
  over-budget flag, the red/amber/green bar, and the overage. Also the
  goal list and the form that adds a goal.
- **Charts** (`Charts`). The pie holds expenses per category, in order of
  first occurrence, with colours cycling through eight. The bars hold
  income and expense per date, in ascending order.
- **Analytics** (`Analytics`). The categories ranked by value, the
  leading category, the total, the average per category, and the
  expense per day label, keeping the last seven labels in list order.
  The dashboard hands this tab its newest-first list, so the labels come
  out newest first and the seven kept are the oldest ones, even though
  the card is titled "last 7 days".
- **Search** (`Search`). A case-insensitive substring search over the
  description and category of every record, plus the box's clear and
  select transitions.
- **Filter options** (`FilterOptions`). The category select lists the
  distinct expense categories in ascending order. The month select lists
  the distinct months in descending order.

Shared definitions:

- `Ledger` holds the record and its projections.
- `Aggregation` holds the find-or-push reducer that the pie, the ranking
  and the daily analytics share. It is written as a loop over an
  accumulator sequence: where the component adds to the entry object
  that `find` returned, the loop replaces that entry of the sequence.
  The loop is proved equal to a declarative group-by.
- `Seqs` and `Text` model the JavaScript built-ins involved: `filter`,
  `reduce`, `find`, `new Set`, a stable `sort`, `reverse`, `slice`,
  `toLowerCase`, `includes`, `join` and `toFixed(2)`. `Text.Split` and
  `Text.ParseCents` are not used by any component. They are the model's
  own readers, used to state that the CSV text and the amounts read back.

Modelling choices:

- **Amounts** are integer cents, so every sum is exact.
- **Dates** are `YYYY-MM-DD` strings. They are ordered lexicographically
  (`StrLe`). For well-formed dates this is the order of
  `new Date(..).getTime()`, and it is also the order of JavaScript's
  default string `sort()`.
- **The current date** comes in as the parameter `today`. In the source
  it is the clock, `new Date()`.
- **The day label of the analytics trend** (`toLocaleDateString`) is the
  function parameter `dayLabel`.
- **Whether the document store accepted a new goal** comes in as the
  parameter `stored`.

## Model

| member | source | states |
|---|---|---|
| Ledger.MonthOf | components/expense-dashboard.tsx:92 | `date.slice(0, 7)`: at most seven characters and a prefix of the date; exactly the first seven when the date is that long, the whole date when it is shorter |
| Ledger.KindsPartitionTotal | components/expense-dashboard.tsx:98-99 | every record is income or expense, so the income total plus the expense total is the total of all records |
| Dashboard.MatchesFilters | components/expense-dashboard.tsx:91-95 | the month and category test; its meaning is stated by Dashboard.FilteredMembership |
| Dashboard.Filtered | components/expense-dashboard.tsx:91-95 | `filteredExpenses`; membership, order and the empty selection are stated by Dashboard.FilteredMembership, Dashboard.FilteredInOrder and Dashboard.FilteredWithoutSelection |
| Dashboard.FilteredMembership | components/expense-dashboard.tsx:91-96 | a record passes iff it is in the list, the month is empty or equals its `date[0..7]`, and the category is empty or equals its category |
| Dashboard.FilteredInOrder | components/expense-dashboard.tsx:91-96 | the records that pass are an order-preserving subsequence of the list |
| Dashboard.FilteredWithoutSelection | components/expense-dashboard.tsx:91-96 | with both selections empty every record passes (the filter is the identity) |
| Dashboard.FilteredSnoc | components/expense-dashboard.tsx:91-96 | one more record at the end of the list is shown exactly when it matches the selection, after the records shown before |
| Dashboard.ListedMonthShowsRecords | components/expense-filters.tsx:31-33 | selecting any month the month select offers shows at least one record |
| Dashboard.MonthChoicesShowRecords | components/expense-filters.tsx:44-64 | the month select's first choice, "all months", shows every record, and when there is any record, every choice it offers shows at least one |
| Dashboard.CategoryChoicesShowExpenses | components/expense-filters.tsx:71-81 | the category select's first choice, "all categories", shows every record, and when there is any expense record, every choice it offers shows at least one expense |
| Dashboard.CategoryExpenseIsGoalSpent | components/expense-dashboard.tsx:91-99 | with only a category selected, the expense card equals what that category's goal counts as spent |
| Dashboard.TotalsOf | components/expense-dashboard.tsx:98-100 | income is the sum of the income records shown, expense the sum of the expense records shown, balance is income minus expense, and income plus expense is the sum of all records shown |
| Dashboard.NewestFirstTotalPreorder | components/expense-dashboard.tsx:66 | the snapshot comparator is a total preorder, so sorting by it is well defined |
| Dashboard.BuildExpenseList | components/expense-dashboard.tsx:59-66 | the pushed-then-sorted list is a permutation of the documents, each date no earlier than the next |
| Dashboard.KindLabel | components/expense-dashboard.tsx:106 | the kind label is a seven-letter word with no comma and no line break, so it never breaks a row or a line of the export |
| Dashboard.CsvFields | components/expense-dashboard.tsx:104-110 | a row has exactly as many fields as the header |
| Dashboard.CsvLines | components/expense-dashboard.tsx:112 | the export has one line more than there are records shown (the header) |
| Dashboard.CsvFieldsSafe | components/expense-dashboard.tsx:104-110 | when the record's text fields hold no comma or line break, no field of its row does (the amount field never does) |
| Dashboard.CsvRowSplits | components/expense-dashboard.tsx:104-112 | such a row holds no line break and splits at commas back into its five fields |
| Dashboard.CsvHeaderSplits | components/expense-dashboard.tsx:103-112 | the header line splits back into the five column names |
| Dashboard.CsvLineOfRecord | components/expense-dashboard.tsx:112 | line i + 1 of the export is the row of the i-th record shown |
| Dashboard.CsvFirstLine | components/expense-dashboard.tsx:103-112 | line 0 of the export is the joined header, which holds no line break |
| Dashboard.CsvLinesUnbroken | components/expense-dashboard.tsx:103-112 | no line of the export holds a line break, when no text field of a record shown does |
| Dashboard.CsvContentShape | components/expense-dashboard.tsx:103-112 | split at line breaks, the export gives back the header and one line per record shown, in order, and each line splits into that record's five fields, when no text field holds a comma or line break |
| Dashboard.CsvKindColumn | components/expense-dashboard.tsx:103-112 | read back from the exported text, the second column of record i's line is "Receita" for income and "Despesa" for an expense |
| Dashboard.CsvContent | components/expense-dashboard.tsx:112 | the export text; its shape is stated by Dashboard.CsvContentShape and Dashboard.CsvKindColumn |
| Dashboard.DashboardState.constructor | components/expense-dashboard.tsx:29-33 | no records, the current month selected, no category, loading |
| Dashboard.DashboardState.OnSnapshot | components/expense-dashboard.tsx:58-68 | the list becomes the documents, newest first, loading ends, and the selection is kept |
| Dashboard.DashboardState.SelectMonth | components/expense-dashboard.tsx:266-267 | the month select sets the month and nothing else |
| Dashboard.DashboardState.SelectCategory | components/expense-dashboard.tsx:268-269 | the category select sets the category and nothing else |
| Dashboard.DashboardState.OnSearchSelect | components/expense-dashboard.tsx:259-263 | choosing a search result selects that record's month, and the record is then shown unless the selected category excludes it |
| Budgets.Spent | components/budget-tracker.tsx:81-83 | `getCategoryExpenses`; its properties are stated by Budgets.SpentSnoc, Budgets.SpentIsCategorySum and Budgets.SpentNonNegative |
| Budgets.SpentSnoc | components/budget-tracker.tsx:81-83 | one more record adds its amount to the spent sum exactly when it is an expense of the goal's category |
| Budgets.SpentIsCategorySum | components/budget-tracker.tsx:81-83 | spent is the sum of the amounts of the expense records of the category |
| Budgets.SpentNonNegative | components/budget-tracker.tsx:81-83 | with no negative amounts, spent is not negative |
| Budgets.Percentage | components/budget-tracker.tsx:136 | for a positive limit: at most 100, at least 0 when spent is not negative, exactly 100 iff spent reaches the limit, and otherwise spent as a percentage of the limit |
| Budgets.IsOverBudget | components/budget-tracker.tsx:137 | `spent > budget.limit`; it drives the bar colour, the label colour and the overage (Budgets.BarColorBands, Budgets.LabelIsRed, Budgets.Overage) |
| Budgets.OverBudgetFillsBar | components/budget-tracker.tsx:136-137 | over budget, the percentage is 100 |
| Budgets.BarColorOf | components/budget-tracker.tsx:164 | the chained colour conditional; its bands are stated by Budgets.BarColorBands |
| Budgets.BarColorBands | components/budget-tracker.tsx:164 | red iff spent exceeds the limit; amber iff spent is at most the limit but more than four fifths of it; green iff at most four fifths |
| Budgets.AboveEightyPercent | components/budget-tracker.tsx:164 | when p% of the limit is spent, p is above 80 iff more than 80% of the limit is spent |
| Budgets.LabelIsRed | components/budget-tracker.tsx:157 | the percentage label is red exactly when the bar is |
| Budgets.Overage | components/budget-tracker.tsx:168-171 | the overage is present iff over budget, and then it is positive and equals spent minus the limit |
| Budgets.GoalList.constructor | components/budget-tracker.tsx:32 | no goals at first |
| Budgets.GoalList.OnSnapshot | components/budget-tracker.tsx:40-49 | the pushed list becomes the goals, holding exactly the documents in order |
| Budgets.GoalForm.constructor | components/budget-tracker.tsx:33-34 | both fields empty, form hidden |
| Budgets.GoalForm.Toggle | components/budget-tracker.tsx:89 | the button flips the form's visibility and keeps the fields |
| Budgets.GoalForm.Cancel | components/budget-tracker.tsx:121 | cancel hides the form and keeps the fields |
| Budgets.GoalForm.EditCategory | components/budget-tracker.tsx:101 | typing sets the category field only |
| Budgets.GoalForm.EditLimit | components/budget-tracker.tsx:110 | typing sets the limit field only |
| Budgets.GoalForm.Submit | components/budget-tracker.tsx:54-69 | nothing is written and nothing changes iff a field is empty; otherwise the goal written holds the fields, and only when the store accepts it are the fields emptied and the form closed |
| Aggregation.Buckets | components/expense-charts.tsx:31-44 | the declarative group-by the reducer computes; its properties are stated by Aggregation.BucketsDistinct, Aggregation.BucketsCover and Aggregation.BucketsSumToTotal |
| Aggregation.SumByKey | components/expense-charts.tsx:33-44 | the find-or-push loop yields one entry per distinct key in order of first occurrence, each holding the sum of its records' amounts |
| Aggregation.BucketsSnocFound | components/expense-charts.tsx:35-37 | a record whose key has an entry adds its amount to that entry and changes nothing else |
| Aggregation.BucketsSnocNew | components/expense-charts.tsx:38-40 | a record with a new key appends an entry holding its amount |
| Aggregation.BucketsDistinct | components/spending-analytics.tsx:28-39 | the entries' keys are distinct, and each entry holds the sum of its key's amounts |
| Aggregation.BucketsCover | components/spending-analytics.tsx:28-39 | there is an entry for a key iff some record has that key |
| Aggregation.BucketsSumToTotal | components/spending-analytics.tsx:28-61 | the entries' sums add up to the total of the records |
| Charts.CategoryBreakdown | components/expense-charts.tsx:31-44 | the pie data is the group-by-category of the expense records |
| Charts.CategoryBreakdownFacts | components/expense-charts.tsx:31-44 | one slice per category of an expense record and no other, each with that category's expense sum, all adding up to the total expense |
| Charts.IncomeLeavesBreakdown | components/expense-charts.tsx:32 | an income record never changes the pie |
| Charts.SliceColor | components/expense-charts.tsx:94 | slice i gets `COLORS[i mod 8]`, a palette colour |
| Charts.SliceColorCycle | components/expense-charts.tsx:27 | colours repeat every eight slices, and slices fewer than eight apart differ |
| Charts.PaletteDistinct | components/expense-charts.tsx:27 | the eight palette colours are pairwise different |
| Charts.EarlierFirstTotalPreorder | components/expense-charts.tsx:69 | the date comparator is a total preorder |
| Charts.DaySeries | components/expense-charts.tsx:47-68 | the per-date series before the sort; its properties are stated by Charts.DaySeriesFacts |
| Charts.DailyTrend | components/expense-charts.tsx:47-69 | the sorted per-date series; its properties are stated by Charts.DailyTrendFacts |
| Charts.ExpenseOnIsDateSum | components/expense-charts.tsx:53-57 | the expense column of a date is the sum of the expense records carrying that date |
| Charts.IncomeOnIsDateSum | components/expense-charts.tsx:53-57 | the income column of a date is the sum of the income records carrying that date |
| Charts.ColumnsSnoc | components/expense-charts.tsx:53-57 | one more record adds its amount to the expense column of its date if it is an expense, else to the income column |
| Charts.ColumnsAbsent | components/expense-charts.tsx:47-68 | a date no record carries has both columns zero |
| Charts.DaySeriesSnocFound | components/expense-charts.tsx:51-57 | a record whose date has an entry adds its amount to that entry's column for its kind |
| Charts.DaySeriesSnocNew | components/expense-charts.tsx:58-63 | a record with a new date appends an entry with its amount in the column for its kind and zero in the other |
| Charts.NewDateAppends | components/expense-charts.tsx:58-63 | a record on a date no entry has appends that date to the distinct dates, and its date's sums are its own amount in its kind's column and zero in the other |
| Charts.DaySeriesFacts | components/expense-charts.tsx:47-68 | before the sort: each date once, an entry for a date iff some record carries it, each entry holding its date's expense and income sums |
| Charts.DailyIncomeExpense | components/expense-charts.tsx:47-69 | the find-or-push loop followed by the sort yields the per-date series in ascending date order |
| Charts.DailyTrendFacts | components/expense-charts.tsx:47-69 | ascending by date, each date once, an entry for a date iff some record of either kind carries it, each with that date's expense and income sums |
| Charts.DaySeriesExpenseTotal | components/expense-charts.tsx:53-61 | the expense column sums to the total expense |
| Charts.DaySeriesIncomeTotal | components/expense-charts.tsx:55-62 | the income column sums to the total income |
| Charts.ColumnSumsSnoc | components/expense-charts.tsx:53-62 | one more record adds its amount to the column sum of its kind and leaves the other column sum unchanged |
| Charts.DailyTrendColumnTotals | components/expense-charts.tsx:47-69 | after the sort the columns still sum to the total expense and the total income |
| Analytics.LargerFirstTotalPreorder | components/spending-analytics.tsx:40 | the by-value comparator is a total preorder |
| Analytics.Ranking | components/spending-analytics.tsx:26-40 | the ranking the tab shows; its properties are stated by Analytics.RankingFacts |
| Analytics.CategoryRanking | components/spending-analytics.tsx:26-40 | the ranking is the group-by-category of the expense records, sorted by value |
| Ledger.ExpensesMembership | components/spending-analytics.tsx:27 | a record is among the expenses iff it is in the list and is an expense |
| Analytics.RankingFacts | components/spending-analytics.tsx:26-61 | descending by value, one entry per category of an expense record and no other, each with its expense sum, adding up to the total expense |
| Analytics.TopCategory | components/spending-analytics.tsx:60 | present iff the ranking is non-empty, and then an entry of it |
| Analytics.TopCategoryIsLargest | components/spending-analytics.tsx:60-72 | absent iff there is no expense record; otherwise its value is at least every entry's |
| Analytics.TotalSpent | components/spending-analytics.tsx:61 | the sum of the ranking's values; Analytics.AverageFacts states that it is the total expense |
| Analytics.AveragePerCategory | components/spending-analytics.tsx:62 | 0 when there is no category, otherwise the total divided by the number of categories |
| Analytics.AverageAtMostLargest | components/spending-analytics.tsx:62 | an average never exceeds a bound on every entry |
| Analytics.AverageFacts | components/spending-analytics.tsx:60-62 | the total spent is the total expense, and the average is at most the leading category's value |
| Analytics.RecentDailySpending | components/spending-analytics.tsx:43-58 | the group-by-day-label of the expense records, keeping only the last seven entries |
| Analytics.RecentDailySpendingFacts | components/spending-analytics.tsx:43-58 | at most seven entries with distinct labels, each with its label's expense sum, a suffix of the full series, and everything kept (summing to the total expense) when there are at most seven labels |
| FilterOptions.Choices | components/expense-filters.tsx:49-76 | a select offers the empty "all" option first, and a choice is either that option or a listed value |
| FilterOptions.CategoryOptions | components/expense-filters.tsx:28 | the category list; its properties are stated by FilterOptions.CategoryOptionsFacts |
| FilterOptions.MonthOptions | components/expense-filters.tsx:31-33 | the month list; its properties are stated by FilterOptions.MonthOptionsFacts |
| FilterOptions.SortDistinctStrings | components/expense-filters.tsx:28-32 | sorting distinct strings yields a strictly ascending list of the same strings |
| FilterOptions.CategoryOptionsFacts | components/expense-filters.tsx:28 | strictly ascending (sorted, no repeats) and exactly the categories of the expense records |
| FilterOptions.MonthOptionsFacts | components/expense-filters.tsx:31-33 | strictly descending (no repeats), and a month is listed iff it is the `date[0..7]` of some record |
| Search.Matches | components/search-expenses.tsx:31-32 | the lowercase `includes` test on description or category; its meaning is stated by Search.ResultsMembership |
| Search.Results | components/search-expenses.tsx:26-34 | an empty term yields nothing, and the results are never more than the records |
| Search.ResultsMembership | components/search-expenses.tsx:27-33 | a record is a result iff the term is not empty and the lowercased term occurs in its lowercased description or category |
| Search.ResultsInOrder | components/search-expenses.tsx:29-33 | the results are an order-preserving subsequence of the records |
| Search.ResultsIgnoreCase | components/search-expenses.tsx:31-32 | terms that lowercase alike give the same results |
| Search.LowerConcat | components/search-expenses.tsx:31-32 | lowercasing works character by character |
| Search.ResultsNarrow | components/search-expenses.tsx:29-33 | typing more characters only narrows the results |
| Search.DescriptionFindsRecord | components/search-expenses.tsx:29-33 | searching for a record's non-empty description, in any case, finds it |
| Search.PanelFor | components/search-expenses.tsx:56-91 | hidden iff the term is empty; the "not found" card iff no record matches; otherwise the list of exactly the matching records |
| Search.AmountLabel | components/search-expenses.tsx:74-76 | `+` for income, `-` otherwise, then ` Kz ` and the amount with two decimals, which reads back as the exact amount |
| Search.SearchBox.constructor | components/search-expenses.tsx:24 | the box starts empty |
| Search.SearchBox.Type | components/search-expenses.tsx:43 | typing replaces the term |
| Search.SearchBox.Clear | components/search-expenses.tsx:48 | the clear button empties the term |
| Search.SearchBox.Choose | components/search-expenses.tsx:63-66 | choosing result i hands exactly that result, a matching record of the list, to the caller, and empties the box |
| Seqs.FilterMembership | components/expense-dashboard.tsx:91 | `filter` keeps an element iff it is in the list and satisfies the test |
| Seqs.FilterIsSubsequence | components/expense-dashboard.tsx:91 | `filter` keeps the list's order |
| Seqs.Find | components/expense-charts.tsx:35 | `find` returns the first index that satisfies the test, or the length when none does |
| Seqs.Distinct | components/expense-filters.tsx:28 | `Array.from(new Set(..))` holds each element once and exactly the list's elements |
| Seqs.SortBySorted | components/spending-analytics.tsx:40 | under a total preorder, `sort` yields an ordered list |
| Seqs.SortBy | components/spending-analytics.tsx:40 | `sort` yields a permutation of its input |
| Seqs.SortByMembership | components/spending-analytics.tsx:40 | `sort` neither adds nor drops an element |
| Seqs.SortByDistinctBy | components/expense-charts.tsx:69 | sorting keeps keys distinct |
| Seqs.SumOfSortBy | components/expense-charts.tsx:69 | sorting keeps every column sum |
| Seqs.ReverseOrder | components/expense-filters.tsx:33 | `reverse` turns an ascending list into a descending one with the same elements |
| Seqs.TakeLast | components/spending-analytics.tsx:58 | `slice(-7)` keeps at most seven elements, the last ones, and everything when there are at most seven |
| Seqs.TakeLastSuffix | components/spending-analytics.tsx:58 | `slice(-7)` of a non-empty count is a suffix of the list, holds only its elements and keeps keys distinct |
| Text.StrLeTotalPreorder | components/expense-filters.tsx:28 | string order is a total preorder |
| Text.StrLeAntisymmetric | components/expense-filters.tsx:28 | strings ordered both ways are equal |
| Text.Lower | components/search-expenses.tsx:31-32 | `toLowerCase` keeps the length, leaves no capital letter, and changes only capitals |
| Text.LowerIdempotent | components/search-expenses.tsx:31-32 | lowercasing twice is lowercasing once |
| Text.ContainsIff | components/search-expenses.tsx:31-32 | `includes` holds iff the needle occurs at some position |
| Text.ContainsPrefix | components/search-expenses.tsx:31-32 | a text that `includes` a needle includes every prefix of it |
| Text.SplitJoin | components/expense-dashboard.tsx:112 | splitting a `join` at the separator gives back the parts, when no part holds it |
| Text.JoinAvoids | components/expense-dashboard.tsx:112 | a join holds a character other than the separator only if a part does |
| Text.FormatCentsRoundTrip | components/expense-dashboard.tsx:109 | `toFixed(2)` of an amount reads back as the same number of cents |

## Left out

- Document store, authentication and subscriptions are not modelled. This covers `onSnapshot`, `addDoc`, `deleteDoc`, sign-in and sign-out, and the `userId` query. A snapshot is a method parameter, and whether a write succeeded is the `stored` parameter.
- Deleting a record or a goal (with its `confirm()` dialog) is left out: it is only a store call.
- Dark mode, `localStorage`, the active tab and all rendering (JSX, charts, the record list, the new-record form) are browser side effects or presentation.
- Document ids are left out of both records and goals (`Budgets.Budget` has no id). They serve only as React keys and as delete targets.
- Amounts are integer cents rather than JavaScript floating point, so rounding in sums and in `toFixed` is not modelled. `toFixed(0)` of the percentage label is not modelled either.
- Budgets.GoalForm.Submit: the limit is written as the typed text; `Number.parseFloat` is not modelled.
- Budgets.Percentage: requires a positive limit. A zero limit divides by zero in the component. A negative limit is also excluded, although the number input (components/budget-tracker.tsx:105-112 sets no `min`) accepts one; the component would then show a negative or capped percentage, which the model does not state.
- Text.Lower: folds only the ASCII capitals; Unicode case mapping is not modelled.
- Text.StrLe: compares `char` values. JavaScript's string `sort()` compares UTF-16 code units, and the two orders can differ outside the Basic Multilingual Plane.
- Charts.EarlierFirst and Dashboard.NewestFirst: compare date strings rather than parsed timestamps. They agree for well-formed `YYYY-MM-DD` dates; an unparsable date (NaN in the comparator) is not modelled.
- Analytics.RecentDailySpending: the `toLocaleDateString("pt-BR")` label is the uninterpreted parameter `dayLabel`. The month names of the month select are left out too.
- Seqs.SortBy: an insertion sort. It is stable, like JavaScript's `sort`, but stability itself is not stated.
- Dashboard.CsvContentShape: the CSV fields are not quoted, exactly as in the component. The line and column structure is therefore stated only for records whose date, category and description hold no comma or line break.
- Aggregation.SumByKey and Charts.DailyIncomeExpense: the components add to the entry object `find` returned (`existing.value += e.amount`, `existing.expense += e.amount`). The model replaces that entry of the accumulator sequence instead, so aliasing of the entry object is not modelled.
- The CSV download (`Blob`, object URL, link click) is I/O. So is its file name `expenses-<month>.csv`.
