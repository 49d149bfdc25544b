/** The dashboard: the record list the subscription delivers (newest first),
    the month and category selection, the records that pass it, their income,
    expense and balance, and the CSV text of the export. */
module Dashboard {
  import opened Seqs
  import opened Text
  import opened Ledger
  import FilterOptions
  import Budgets

  // ---------------------------------------------------------------------
  // month and category selection

  /** `filteredExpenses`' test: an empty selection does not constrain. */
  predicate MatchesFilters(t: Transaction, month: string, category: string) {
    && (month == "" || MonthOf(t.date) == month)
    && (category == "" || t.category == category)
  }

  function Filtered(ts: seq<Transaction>, month: string, category: string): seq<Transaction> {
    Filter(ts, (t: Transaction) => MatchesFilters(t, month, category))
  }

  /** A record passes exactly when it is in the list, its month is the
      selected one (or none is selected) and its category is the selected
      one (or none is selected). */
  lemma FilteredMembership(ts: seq<Transaction>, month: string, category: string, t: Transaction)
    ensures t in Filtered(ts, month, category) <==>
      && t in ts
      && (month == "" || MonthOf(t.date) == month)
      && (category == "" || t.category == category)
  {
    FilterMembership(ts, (t: Transaction) => MatchesFilters(t, month, category), t);
  }

  /** The records that pass keep their order in the list. */
  lemma FilteredInOrder(ts: seq<Transaction>, month: string, category: string)
    ensures IsSubsequence(Filtered(ts, month, category), ts)
  {
    FilterIsSubsequence(ts, (t: Transaction) => MatchesFilters(t, month, category));
  }

  /** With "all months" and "all categories" selected, every record passes. */
  lemma FilteredWithoutSelection(ts: seq<Transaction>)
    ensures Filtered(ts, "", "") == ts
  {
    FilterKeepsAll(ts, (t: Transaction) => MatchesFilters(t, "", ""));
  }

  /** Every month the month select lists shows at least one record. */
  lemma ListedMonthShowsRecords(ts: seq<Transaction>, month: string)
    requires month in FilterOptions.MonthOptions(ts)
    ensures Filtered(ts, month, "") != []
  {
    FilterOptions.MonthOptionsFacts(ts);
    var t :| t in ts && MonthOf(t.date) == month;
    FilteredMembership(ts, month, "", t);
  }

  /** The month select: its first choice, "all months", shows every record,
      and with any record at all, every choice it offers shows at least one. */
  lemma MonthChoicesShowRecords(ts: seq<Transaction>)
    ensures FilterOptions.Choices(FilterOptions.MonthOptions(ts))[0] == ""
    ensures Filtered(ts, FilterOptions.Choices(FilterOptions.MonthOptions(ts))[0], "") == ts
    ensures ts != [] ==>
      forall c :: c in FilterOptions.Choices(FilterOptions.MonthOptions(ts)) ==> Filtered(ts, c, "") != []
  {
    FilteredWithoutSelection(ts);
    var choices := FilterOptions.Choices(FilterOptions.MonthOptions(ts));
    forall c | c in choices && ts != [] ensures Filtered(ts, c, "") != [] {
      if c != "" {
        ListedMonthShowsRecords(ts, c);
      }
    }
  }

  /** The category select: its first choice, "all categories", shows every
      record, and with any expense record at all, every choice it offers
      shows some expense. */
  lemma CategoryChoicesShowExpenses(ts: seq<Transaction>)
    ensures FilterOptions.Choices(FilterOptions.CategoryOptions(ts))[0] == ""
    ensures Filtered(ts, "", FilterOptions.Choices(FilterOptions.CategoryOptions(ts))[0]) == ts
    ensures Expenses(ts) != [] ==>
      forall c :: c in FilterOptions.Choices(FilterOptions.CategoryOptions(ts)) ==> Expenses(Filtered(ts, "", c)) != []
  {
    FilteredWithoutSelection(ts);
    FilterOptions.CategoryOptionsFacts(ts);
    var choices := FilterOptions.Choices(FilterOptions.CategoryOptions(ts));
    forall c | c in choices && Expenses(ts) != [] ensures Expenses(Filtered(ts, "", c)) != [] {
      if c != "" {
        var t :| t in ts && IsExpense(t) && t.category == c;
        FilteredMembership(ts, "", c, t);
        ExpensesMembership(Filtered(ts, "", c));
      }
    }
  }

  /** Adding a record at the end adds it to what passes exactly when it
      matches the selection. */
  lemma FilteredSnoc(ts: seq<Transaction>, t: Transaction, month: string, category: string)
    ensures Filtered(ts + [t], month, category)
         == Filtered(ts, month, category) + (if MatchesFilters(t, month, category) then [t] else [])
  {
    FilterSnoc(ts, t, (t: Transaction) => MatchesFilters(t, month, category));
  }

  /** Selecting only a category, the expense shown is what that category's
      goal counts as spent. */
  lemma {:induction false} CategoryExpenseIsGoalSpent(ts: seq<Transaction>, category: string)
    requires category != ""
    ensures Total(Expenses(Filtered(ts, "", category))) == Budgets.Spent(ts, category)
  {
    if ts != [] {
      var init, t := ts[..|ts| - 1], ts[|ts| - 1];
      assert ts == init + [t];
      CategoryExpenseIsGoalSpent(init, category);
      Budgets.SpentSnoc(init, t, category);
      CategoryExpenseSnoc(init, t, category);
    }
  }

  lemma CategoryExpenseSnoc(ts: seq<Transaction>, t: Transaction, category: string)
    requires category != ""
    ensures Total(Expenses(Filtered(ts + [t], "", category)))
         == Total(Expenses(Filtered(ts, "", category))) + (if t.category == category && IsExpense(t) then t.amount else 0)
  {
    FilteredSnoc(ts, t, "", category);
    var f := Filtered(ts, "", category);
    if t.category == category {
      TotalExpensesSnoc(f, t);
    } else {
      assert f + [] == f;
    }
  }

  // ---------------------------------------------------------------------
  // income, expense, balance

  /** The three summary cards. */
  datatype Totals = Totals(income: int, expense: int, balance: int)

  /** `totalIncome`, `totalExpenses` and `balance` over the records shown. */
  function TotalsOf(fs: seq<Transaction>): (s: Totals)
    ensures s.income == Total(Incomes(fs)) && s.expense == Total(Expenses(fs))
    ensures s.balance == s.income - s.expense
    ensures s.income + s.expense == Total(fs)
  {
    KindsPartitionTotal(fs);
    var income := Total(Incomes(fs));
    var expense := Total(Expenses(fs));
    Totals(income, expense, income - expense)
  }

  // ---------------------------------------------------------------------
  // the record list

  /** The snapshot comparator `new Date(b.date) - new Date(a.date)`: a comes
      first when its date is not earlier than b's. */
  predicate NewestFirst(a: Transaction, b: Transaction) {
    StrLe(b.date, a.date)
  }

  lemma NewestFirstTotalPreorder()
    ensures TotalPreorder(NewestFirst)
  {
    forall a: Transaction, b: Transaction ensures NewestFirst(a, b) || NewestFirst(b, a) {
      StrLeTotal(a.date, b.date);
    }
    forall a: Transaction, b: Transaction, c: Transaction | NewestFirst(a, b) && NewestFirst(b, c)
      ensures NewestFirst(a, c)
    {
      StrLeTransitive(c.date, b.date, a.date);
    }
  }

  /** The snapshot handler: pushes every document onto a fresh list, then
      sorts it newest first. The list holds exactly the documents, each date
      no earlier than the next. */
  method BuildExpenseList(docs: seq<Transaction>) returns (list: seq<Transaction>)
    ensures list == SortBy(docs, NewestFirst)
    ensures multiset(list) == multiset(docs)
    ensures forall i, j :: 0 <= i < j < |list| ==> StrLe(list[j].date, list[i].date)
  {
    var pushed: seq<Transaction> := [];
    for i := 0 to |docs|
      invariant pushed == docs[..i]
    {
      pushed := pushed + [docs[i]];
    }
    assert pushed == docs;
    list := SortBy(pushed, NewestFirst);
    NewestFirstTotalPreorder();
    SortBySorted(pushed, NewestFirst);
  }

  // ---------------------------------------------------------------------
  // CSV export

  /** The header line's fields. */
  const CsvHeader: seq<string> := ["Data", "Tipo", "Categoria", "Descrição", "Valor"]

  /** "Receita" for income, "Despesa" for an expense: a word of seven
      letters that can never break a CSV row or line. */
  function KindLabel(k: Kind): (s: string)
    ensures |s| == 7 && ',' !in s && '\n' !in s
  {
    match k
    case Income => "Receita"
    case Expense => "Despesa"
  }

  /** One row's fields: date, kind, category, description, `Kz <amount>`. */
  function CsvFields(t: Transaction): (fields: seq<string>)
    ensures |fields| == |CsvHeader|
  {
    [t.date, KindLabel(t.kind), t.category, t.description, "Kz " + FormatCents(t.amount)]
  }

  /** `row.join(",")`. */
  function CsvRow(t: Transaction): string {
    Join(CsvFields(t), ',')
  }

  /** `rows.map(row => row.join(","))`. */
  function CsvRows(fs: seq<Transaction>): seq<string> {
    seq(|fs|, i requires 0 <= i < |fs| => CsvRow(fs[i]))
  }

  /** The lines of the export: the header, then one row per record. */
  function CsvLines(fs: seq<Transaction>): (lines: seq<string>)
    ensures |lines| == |fs| + 1
  {
    [Join(CsvHeader, ',')] + CsvRows(fs)
  }

  /** `[headers.join(","), ...rows.map(row => row.join(","))].join("\n")`. */
  function CsvContent(fs: seq<Transaction>): string {
    Join(CsvLines(fs), '\n')
  }

  /** The text fields of a record hold neither a comma nor a line break, so
      the unquoted CSV keeps its shape. */
  predicate CsvSafe(t: Transaction) {
    && ',' !in t.date && ',' !in t.category && ',' !in t.description
    && '\n' !in t.date && '\n' !in t.category && '\n' !in t.description
  }

  lemma CsvFieldsSafe(t: Transaction)
    requires CsvSafe(t)
    ensures forall k :: 0 <= k < |CsvFields(t)| ==> ',' !in CsvFields(t)[k] && '\n' !in CsvFields(t)[k]
  {
    var f := CsvFields(t);
    assert f[4] == "Kz " + FormatCents(t.amount);
  }

  /** A record's row splits back into its five fields. */
  lemma CsvRowSplits(t: Transaction)
    requires CsvSafe(t)
    ensures '\n' !in CsvRow(t)
    ensures Split(CsvRow(t), ',') == CsvFields(t)
  {
    CsvFieldsSafe(t);
    JoinAvoids(CsvFields(t), ',', '\n');
    SplitJoin(CsvFields(t), ',');
  }

  /** The header line splits back into the five column names. */
  lemma CsvHeaderSplits()
    ensures '\n' !in Join(CsvHeader, ',')
    ensures Split(Join(CsvHeader, ','), ',') == CsvHeader
  {
    JoinAvoids(CsvHeader, ',', '\n');
    SplitJoin(CsvHeader, ',');
  }

  /** Line i + 1 of the export is the row of record i. */
  lemma CsvLineOfRecord(fs: seq<Transaction>, i: nat)
    requires i < |fs|
    ensures CsvLines(fs)[i + 1] == CsvRow(fs[i])
  {
  }

  /** Line 0 of the export is the header, which holds no line break. */
  lemma CsvFirstLine(fs: seq<Transaction>)
    ensures CsvLines(fs)[0] == Join(CsvHeader, ',')
    ensures '\n' !in CsvLines(fs)[0]
  {
    CsvHeaderSplits();
  }

  /** No line of the export holds a line break, when no text field does. */
  lemma CsvLinesUnbroken(fs: seq<Transaction>)
    requires forall t :: t in fs ==> CsvSafe(t)
    ensures forall k :: 0 <= k < |CsvLines(fs)| ==> '\n' !in CsvLines(fs)[k]
  {
    CsvFirstLine(fs);
    CsvRowLinesUnbroken(fs);
  }

  /** The record lines, after the header, hold no line break. */
  lemma CsvRowLinesUnbroken(fs: seq<Transaction>)
    requires forall t :: t in fs ==> CsvSafe(t)
    ensures forall k :: 1 <= k < |CsvLines(fs)| ==> '\n' !in CsvLines(fs)[k]
  {
    var rows := CsvRows(fs);
    forall i | 0 <= i < |rows| ensures '\n' !in rows[i] {
      assert fs[i] in fs;
      CsvRowSplits(fs[i]);
    }
    assert CsvLines(fs)[1..] == rows;
  }

  /** Read back line by line and field by field, the export is the header and
      then one row per record shown, in order, each with the record's five
      fields, when no text field holds a comma or a line break. */
  lemma CsvContentShape(fs: seq<Transaction>)
    requires forall t :: t in fs ==> CsvSafe(t)
    ensures Split(CsvContent(fs), '\n') == CsvLines(fs)
    ensures Split(CsvLines(fs)[0], ',') == CsvHeader
    ensures forall i :: 0 <= i < |fs| ==> Split(CsvLines(fs)[i + 1], ',') == CsvFields(fs[i])
  {
    CsvLinesUnbroken(fs);
    SplitJoin(CsvLines(fs), '\n');
    CsvHeaderSplits();
    forall i | 0 <= i < |fs| ensures Split(CsvLines(fs)[i + 1], ',') == CsvFields(fs[i]) {
      assert fs[i] in fs;
      CsvLineOfRecord(fs, i);
      CsvRowSplits(fs[i]);
    }
  }

  /** Read back from the exported text, the second column of the line of
      record i is "Receita" for income and "Despesa" for an expense. */
  lemma CsvKindColumn(fs: seq<Transaction>, i: nat)
    requires forall t :: t in fs ==> CsvSafe(t)
    requires i < |fs|
    ensures |Split(CsvContent(fs), '\n')| == |fs| + 1
    ensures |Split(Split(CsvContent(fs), '\n')[i + 1], ',')| == |CsvHeader|
    ensures Split(Split(CsvContent(fs), '\n')[i + 1], ',')[1]
         == (if fs[i].kind == Income then "Receita" else "Despesa")
  {
    var lines := Split(CsvContent(fs), '\n');
    assert lines == CsvLines(fs) && Split(lines[i + 1], ',') == CsvFields(fs[i]) by {
      CsvContentShape(fs);
    }
    assert CsvFields(fs[i])[1] == KindLabel(fs[i].kind);
  }

  // ---------------------------------------------------------------------
  // the dashboard's state

  class DashboardState {
    var expenses: seq<Transaction>
    var selectedMonth: string
    var selectedCategory: string
    var loading: bool

    /** The month starts as the current one: `today` is the clock's ISO
        timestamp, `new Date().toISOString()`. */
    constructor(today: string)
      ensures expenses == [] && selectedMonth == MonthOf(today) && selectedCategory == "" && loading
    {
      expenses := [];
      selectedMonth := MonthOf(today);
      selectedCategory := "";
      loading := true;
    }

    /** The records the list, the cards, the charts and the export use. */
    function Visible(): seq<Transaction>
      reads this
    {
      Filtered(expenses, selectedMonth, selectedCategory)
    }

    /** A snapshot replaces the list with its documents, newest first, and
        ends the loading state. */
    method OnSnapshot(docs: seq<Transaction>)
      modifies this
      ensures multiset(expenses) == multiset(docs)
      ensures forall i, j :: 0 <= i < j < |expenses| ==> StrLe(expenses[j].date, expenses[i].date)
      ensures !loading
      ensures selectedMonth == old(selectedMonth) && selectedCategory == old(selectedCategory)
    {
      expenses := BuildExpenseList(docs);
      loading := false;
    }

    /** The month select (`""` is "all months"). */
    method SelectMonth(month: string)
      modifies this
      ensures selectedMonth == month
      ensures expenses == old(expenses) && selectedCategory == old(selectedCategory) && loading == old(loading)
    {
      selectedMonth := month;
    }

    /** The category select (`""` is "all categories"). */
    method SelectCategory(category: string)
      modifies this
      ensures selectedCategory == category
      ensures expenses == old(expenses) && selectedMonth == old(selectedMonth) && loading == old(loading)
    {
      selectedCategory := category;
    }

    /** Choosing a search result switches to that record's month, so the
        record is shown unless the selected category excludes it. */
    method OnSearchSelect(t: Transaction)
      modifies this
      ensures selectedMonth == MonthOf(t.date)
      ensures expenses == old(expenses) && selectedCategory == old(selectedCategory) && loading == old(loading)
      ensures t in expenses && (selectedCategory == "" || t.category == selectedCategory) ==> t in Visible()
    {
      selectedMonth := MonthOf(t.date);
      FilteredMembership(expenses, selectedMonth, selectedCategory, t);
    }
  }
}
