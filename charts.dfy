/** The dashboard's charts: expenses per category (pie) and income against
    expense per day (bars), both over the records the dashboard filter kept. */
module Charts {
  import opened Seqs
  import opened Text
  import opened Ledger
  import opened Aggregation

  // ---------------------------------------------------------------------
  // expenses per category

  /** The pie data: the find-or-push reducer over the expense records,
      keyed by category, left in order of first occurrence. */
  method CategoryBreakdown(ts: seq<Transaction>) returns (data: seq<Bucket>)
    ensures data == Buckets(Expenses(ts), CategoryOf)
  {
    data := SumByKey(Expenses(ts), CategoryOf);
  }

  /** One slice per category that some expense record has, each holding the
      sum of that category's expense amounts; the slices add up to the
      total expense. */
  lemma CategoryBreakdownFacts(ts: seq<Transaction>, k: string)
    ensures var data := Buckets(Expenses(ts), CategoryOf);
      && DistinctBy(data, BucketKey)
      && (forall b :: b in data ==> b.total == SumWhere(Expenses(ts), CategoryOf, b.key))
      && ((exists i :: 0 <= i < |data| && data[i].key == k)
          <==> (exists t :: t in ts && IsExpense(t) && t.category == k))
      && SumOf(data, BucketTotal) == Total(Expenses(ts))
  {
    BucketsDistinct(Expenses(ts), CategoryOf);
    BucketsCover(Expenses(ts), CategoryOf, k);
    BucketsSumToTotal(Expenses(ts), CategoryOf);
    ExpensesMembership(ts);
  }

  /** An income record never changes the pie. */
  lemma IncomeLeavesBreakdown(ts: seq<Transaction>, t: Transaction)
    requires IsIncome(t)
    ensures Buckets(Expenses(ts + [t]), CategoryOf) == Buckets(Expenses(ts), CategoryOf)
  {
    FilterSnoc(ts, t, IsExpense);
  }

  /** `COLORS`, cycled over the slices. */
  const Palette: seq<string> :=
    ["#ef4444", "#f97316", "#eab308", "#22c55e", "#06b6d4", "#3b82f6", "#8b5cf6", "#ec4899"]

  /** `COLORS[index % COLORS.length]`. */
  function SliceColor(index: nat): (c: string)
    ensures c in Palette
  {
    Palette[index % |Palette|]
  }

  /** The eight colours are different. */
  lemma PaletteDistinct()
    ensures NoDup(Palette)
  {
    forall a, b | 0 <= a < b < |Palette| ensures Palette[a] != Palette[b] {
      assert Palette[a][1..3] != Palette[b][1..3] || Palette[a][3..] != Palette[b][3..];
    }
  }

  /** The colours repeat every eight slices, and slices fewer than eight
      apart never share a colour. */
  lemma SliceColorCycle(i: nat, j: nat)
    ensures SliceColor(i + |Palette|) == SliceColor(i)
    ensures i < j < i + |Palette| ==> SliceColor(i) != SliceColor(j)
  {
    var n := |Palette|;
    assert (i + n) % n == i % n;
    if i < j < i + n {
      PaletteDistinct();
      var q, r := i / n, i % n;
      assert i == q * n + r;
      var k := j - i;
      if r + k < n {
        assert j == q * n + (r + k);
        assert j % n == r + k;
      } else {
        assert j == (q + 1) * n + (r + k - n);
        assert j % n == r + k - n;
      }
    }
  }

  // ---------------------------------------------------------------------
  // income and expense per day

  /** `{ date, expense, income }`. */
  datatype DayEntry = DayEntry(date: string, expense: int, income: int)

  function EntryDate(e: DayEntry): string { e.date }
  function EntryExpense(e: DayEntry): int { e.expense }
  function EntryIncome(e: DayEntry): int { e.income }

  /** The comparator `new Date(a.date) - new Date(b.date)`: earlier first. */
  predicate EarlierFirst(a: DayEntry, b: DayEntry) {
    StrLe(a.date, b.date)
  }

  lemma EarlierFirstTotalPreorder()
    ensures TotalPreorder(EarlierFirst)
  {
    forall a, b ensures EarlierFirst(a, b) || EarlierFirst(b, a) {
      StrLeTotal(a.date, b.date);
    }
    forall a, b, c | EarlierFirst(a, b) && EarlierFirst(b, c) ensures EarlierFirst(a, c) {
      StrLeTransitive(a.date, b.date, c.date);
    }
  }

  /** The sum of the expense amounts dated day. */
  function ExpenseOn(ts: seq<Transaction>, day: string): int {
    if ts == [] then 0
    else
      var last := ts[|ts| - 1];
      ExpenseOn(ts[..|ts| - 1], day) + (if IsExpense(last) && last.date == day then last.amount else 0)
  }

  /** The sum of the income amounts dated day. */
  function IncomeOn(ts: seq<Transaction>, day: string): int {
    if ts == [] then 0
    else
      var last := ts[|ts| - 1];
      IncomeOn(ts[..|ts| - 1], day) + (if IsIncome(last) && last.date == day then last.amount else 0)
  }

  /** What the daily reducer computes, stated without the loop: one entry per
      distinct date, in order of first occurrence, with the sum of that
      date's expense amounts and the sum of its income amounts. */
  function DaySeries(ts: seq<Transaction>): seq<DayEntry> {
    var d := Distinct(KeysOf(ts, DateOf));
    seq(|d|, i requires 0 <= i < |d| => DayEntry(d[i], ExpenseOn(ts, d[i]), IncomeOn(ts, d[i])))
  }

  lemma ColumnsSnoc(ts: seq<Transaction>, t: Transaction, day: string)
    ensures ExpenseOn(ts + [t], day) == ExpenseOn(ts, day) + (if IsExpense(t) && t.date == day then t.amount else 0)
    ensures IncomeOn(ts + [t], day) == IncomeOn(ts, day) + (if IsIncome(t) && t.date == day then t.amount else 0)
  {
    assert (ts + [t])[..|ts|] == ts;
  }

  /** The expense column is the per-date sum over the expense records. */
  lemma {:induction false} ExpenseOnIsDateSum(ts: seq<Transaction>, day: string)
    ensures ExpenseOn(ts, day) == SumWhere(Expenses(ts), DateOf, day)
  {
    if ts != [] {
      var init, t := ts[..|ts| - 1], ts[|ts| - 1];
      assert ts == init + [t];
      ExpenseOnIsDateSum(init, day);
      ColumnsSnoc(init, t, day);
      ExpensesSumWhereSnoc(init, t, DateOf, day);
    }
  }

  /** The income column is the per-date sum over the income records. */
  lemma {:induction false} IncomeOnIsDateSum(ts: seq<Transaction>, day: string)
    ensures IncomeOn(ts, day) == SumWhere(Incomes(ts), DateOf, day)
  {
    if ts != [] {
      var init, t := ts[..|ts| - 1], ts[|ts| - 1];
      assert ts == init + [t];
      IncomeOnIsDateSum(init, day);
      ColumnsSnoc(init, t, day);
      IncomesSumWhereSnoc(init, t, DateOf, day);
    }
  }

  /** A date no record carries has nothing in either column. */
  lemma {:induction false} ColumnsAbsent(ts: seq<Transaction>, day: string)
    requires forall t :: t in ts ==> t.date != day
    ensures ExpenseOn(ts, day) == 0 && IncomeOn(ts, day) == 0
  {
    if ts != [] {
      var init := ts[..|ts| - 1];
      assert forall t :: t in init ==> t in ts;
      ColumnsAbsent(init, day);
    }
  }

  /** The entry a record on an already-listed date lands in. */
  function AddToEntry(e: DayEntry, t: Transaction): DayEntry {
    if IsExpense(t) then e.(expense := e.expense + t.amount) else e.(income := e.income + t.amount)
  }

  /** The entry a record on a new date starts. */
  function NewEntry(t: Transaction): DayEntry {
    DayEntry(t.date, if IsExpense(t) then t.amount else 0, if IsIncome(t) then t.amount else 0)
  }

  /** A record on a date that already has an entry adds to one column of it. */
  lemma DaySeriesSnocFound(ts: seq<Transaction>, t: Transaction, j: nat)
    requires j < |DaySeries(ts)| && DaySeries(ts)[j].date == t.date
    ensures DaySeries(ts + [t]) == DaySeries(ts)[j := AddToEntry(DaySeries(ts)[j], t)]
  {
    var d := Distinct(KeysOf(ts, DateOf));
    assert Distinct(KeysOf(ts + [t], DateOf)) == d by {
      KeysOfSnoc(ts, t, DateOf);
      DistinctSnoc(KeysOf(ts, DateOf), t.date);
      assert d[j] == t.date;
    }
    var s, s' := DaySeries(ts), DaySeries(ts + [t]);
    var u := s[j := AddToEntry(s[j], t)];
    assert |s'| == |d| == |u|;
    forall i | 0 <= i < |d| ensures s'[i] == u[i] {
      ColumnsSnoc(ts, t, d[i]);
    }
  }

  /** No record carries a date that has no entry. */
  lemma DaySeriesMissing(ts: seq<Transaction>, day: string)
    requires forall j :: 0 <= j < |DaySeries(ts)| ==> DaySeries(ts)[j].date != day
    ensures day !in Distinct(KeysOf(ts, DateOf))
    ensures forall u :: u in ts ==> u.date != day
  {
    var d := Distinct(KeysOf(ts, DateOf));
    forall j | 0 <= j < |d| ensures d[j] != day {
      assert DaySeries(ts)[j].date == d[j];
    }
    KeysOfMembership(ts, DateOf, day);
  }

  /** A record on a new date appends its date to the distinct dates, and
      starts its entry with nothing else in it. */
  lemma NewDateAppends(ts: seq<Transaction>, t: Transaction)
    requires forall j :: 0 <= j < |DaySeries(ts)| ==> DaySeries(ts)[j].date != t.date
    ensures Distinct(KeysOf(ts + [t], DateOf)) == Distinct(KeysOf(ts, DateOf)) + [t.date]
    ensures ExpenseOn(ts + [t], t.date) == NewEntry(t).expense
    ensures IncomeOn(ts + [t], t.date) == NewEntry(t).income
  {
    DaySeriesMissing(ts, t.date);
    KeysOfSnoc(ts, t, DateOf);
    DistinctSnoc(KeysOf(ts, DateOf), t.date);
    ColumnsAbsent(ts, t.date);
    ColumnsSnoc(ts, t, t.date);
  }

  /** A record on a new date appends an entry holding its amount in the
      column of its kind. */
  lemma DaySeriesSnocNew(ts: seq<Transaction>, t: Transaction)
    requires forall j :: 0 <= j < |DaySeries(ts)| ==> DaySeries(ts)[j].date != t.date
    ensures DaySeries(ts + [t]) == DaySeries(ts) + [NewEntry(t)]
  {
    var d := Distinct(KeysOf(ts, DateOf));
    NewDateAppends(ts, t);
    var s, s' := DaySeries(ts), DaySeries(ts + [t]);
    var u := s + [NewEntry(t)];
    assert |s'| == |u|;
    forall i | 0 <= i < |u| ensures s'[i] == u[i] {
      if i < |d| {
        ColumnsSnoc(ts, t, d[i]);
      }
    }
  }

  /** The bar data: the dates in ascending order. */
  function DailyTrend(ts: seq<Transaction>): seq<DayEntry> {
    SortBy(DaySeries(ts), EarlierFirst)
  }

  /** The daily reducer over all records (either kind), then the sort: the
      accumulator's entries are found by date and updated in place. */
  method DailyIncomeExpense(ts: seq<Transaction>) returns (days: seq<DayEntry>)
    ensures days == DailyTrend(ts)
  {
    var acc: seq<DayEntry> := [];
    for i := 0 to |ts|
      invariant acc == DaySeries(ts[..i])
    {
      var t := ts[i];
      var j := Find(acc, (e: DayEntry) => e.date == t.date);
      if j < |acc| {
        assert acc[j := AddToEntry(acc[j], t)] == DaySeries(ts[..i + 1]) by {
          assert ts[..i + 1] == ts[..i] + [t];
          DaySeriesSnocFound(ts[..i], t, j);
        }
        if t.kind == Expense {
          acc := acc[j := acc[j].(expense := acc[j].expense + t.amount)];
        } else {
          acc := acc[j := acc[j].(income := acc[j].income + t.amount)];
        }
      } else {
        assert acc + [NewEntry(t)] == DaySeries(ts[..i + 1]) by {
          assert ts[..i + 1] == ts[..i] + [t];
          DaySeriesSnocNew(ts[..i], t);
        }
        acc := acc + [DayEntry(t.date,
                               if t.kind == Expense then t.amount else 0,
                               if t.kind == Income then t.amount else 0)];
      }
    }
    assert ts[..|ts|] == ts;
    days := SortBy(acc, EarlierFirst);
  }

  /** The series lists each date once, a date exactly when some record
      carries it, and each entry holds that date's expense and income sums. */
  lemma DaySeriesFacts(ts: seq<Transaction>, day: string)
    ensures DistinctBy(DaySeries(ts), EntryDate)
    ensures (exists e :: e in DaySeries(ts) && e.date == day) <==> (exists t :: t in ts && t.date == day)
    ensures forall e :: e in DaySeries(ts) ==>
      e.expense == ExpenseOn(ts, e.date) && e.income == IncomeOn(ts, e.date)
  {
    var series := DaySeries(ts);
    var d := Distinct(KeysOf(ts, DateOf));
    forall i, j | 0 <= i < j < |series| ensures series[i].date != series[j].date {
      assert series[i].date == d[i] && series[j].date == d[j];
    }
    KeysOfMembership(ts, DateOf, day);
    if day in d {
      var i :| 0 <= i < |d| && d[i] == day;
      assert series[i] in series && series[i].date == day;
    }
    if e :| e in series && e.date == day {
      var i :| 0 <= i < |series| && series[i] == e;
      assert d[i] == day;
    }
  }

  /** The days come in ascending date order, each date once, a date has an
      entry exactly when some record carries it, and each entry holds that
      date's expense and income sums. */
  lemma DailyTrendFacts(ts: seq<Transaction>, day: string)
    ensures SortedBy(DailyTrend(ts), EarlierFirst)
    ensures DistinctBy(DailyTrend(ts), EntryDate)
    ensures (exists e :: e in DailyTrend(ts) && e.date == day) <==> (exists t :: t in ts && t.date == day)
    ensures forall e :: e in DailyTrend(ts) ==>
      e.expense == ExpenseOn(ts, e.date) && e.income == IncomeOn(ts, e.date)
  {
    var series := DaySeries(ts);
    DaySeriesFacts(ts, day);
    EarlierFirstTotalPreorder();
    SortBySorted(series, EarlierFirst);
    SortByDistinctBy(series, EarlierFirst, EntryDate);
    SortByMembership(series, EarlierFirst);
  }

  /** One more record adds its amount to the expense column's sum when it
      is an expense, and to the income column's sum when it is income. */
  lemma ColumnSumsSnoc(ts: seq<Transaction>, t: Transaction)
    ensures SumOf(DaySeries(ts + [t]), EntryExpense)
         == SumOf(DaySeries(ts), EntryExpense) + (if IsExpense(t) then t.amount else 0)
    ensures SumOf(DaySeries(ts + [t]), EntryIncome)
         == SumOf(DaySeries(ts), EntryIncome) + (if IsIncome(t) then t.amount else 0)
  {
    var s := DaySeries(ts);
    if j :| 0 <= j < |s| && s[j].date == t.date {
      DaySeriesSnocFound(ts, t, j);
      SumOfUpdate(s, j, AddToEntry(s[j], t), EntryExpense);
      SumOfUpdate(s, j, AddToEntry(s[j], t), EntryIncome);
    } else {
      DaySeriesSnocNew(ts, t);
      assert (s + [NewEntry(t)])[..|s|] == s;
    }
  }

  /** Summed over all days, the expense column gives the total expense. */
  lemma {:induction false} DaySeriesExpenseTotal(ts: seq<Transaction>)
    ensures SumOf(DaySeries(ts), EntryExpense) == Total(Expenses(ts))
  {
    if ts != [] {
      var init, t := ts[..|ts| - 1], ts[|ts| - 1];
      assert ts == init + [t];
      DaySeriesExpenseTotal(init);
      TotalExpensesSnoc(init, t);
      ColumnSumsSnoc(init, t);
    }
  }

  /** Summed over all days, the income column gives the total income. */
  lemma {:induction false} DaySeriesIncomeTotal(ts: seq<Transaction>)
    ensures SumOf(DaySeries(ts), EntryIncome) == Total(Incomes(ts))
  {
    if ts != [] {
      var init, t := ts[..|ts| - 1], ts[|ts| - 1];
      assert ts == init + [t];
      DaySeriesIncomeTotal(init);
      TotalIncomesSnoc(init, t);
      ColumnSumsSnoc(init, t);
    }
  }

  lemma DailyTrendColumnTotals(ts: seq<Transaction>)
    ensures SumOf(DailyTrend(ts), EntryExpense) == Total(Expenses(ts))
    ensures SumOf(DailyTrend(ts), EntryIncome) == Total(Incomes(ts))
  {
    DaySeriesExpenseTotal(ts);
    DaySeriesIncomeTotal(ts);
    SumOfSortBy(DaySeries(ts), EarlierFirst, EntryExpense);
    SumOfSortBy(DaySeries(ts), EarlierFirst, EntryIncome);
  }
}
