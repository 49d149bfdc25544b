/** The option lists of the dashboard's two filter selects: the categories
    of the expense records, and the months of all records. */
module FilterOptions {
  import opened Seqs
  import opened Text
  import opened Ledger

  /** `Array.from(new Set(expenses.filter(expense).map(category))).sort()`. */
  function CategoryOptions(ts: seq<Transaction>): seq<string> {
    SortBy(Distinct(KeysOf(Expenses(ts), CategoryOf)), StrLe)
  }

  /** `Array.from(new Set(expenses.map(date.slice(0, 7)))).sort().reverse()`. */
  function MonthOptions(ts: seq<Transaction>): seq<string> {
    Reverse(SortBy(Distinct(KeysOf(ts, MonthKey)), StrLe))
  }

  /** The select's choices: the "no constraint" option `""` first, then the
      listed values. */
  function Choices(options: seq<string>): (choices: seq<string>)
    ensures |choices| == |options| + 1 && choices[0] == ""
    ensures choices[1..] == options
    ensures forall c :: c in choices <==> c == "" || c in options
  {
    [""] + options
  }

  /** Sorting a list of distinct strings gives a strictly increasing list of
      the same strings. */
  lemma SortDistinctStrings(xs: seq<string>)
    requires NoDup(xs)
    ensures forall i, j :: 0 <= i < j < |SortBy(xs, StrLe)| ==> StrLt(SortBy(xs, StrLe)[i], SortBy(xs, StrLe)[j])
    ensures forall x :: x in SortBy(xs, StrLe) <==> x in xs
  {
    var s := SortBy(xs, StrLe);
    StrLeTotalPreorder();
    SortBySorted(xs, StrLe);
    var id := (x: string) => x;
    assert DistinctBy(xs, id);
    SortByDistinctBy(xs, StrLe, id);
    assert NoDup(s);
    SortedNoDupIsStrict(s);
    forall x ensures x in s <==> x in xs {
      assert x in s <==> x in multiset(s);
      assert x in xs <==> x in multiset(xs);
    }
  }

  /** The category options are strictly increasing (sorted, no repeats) and
      are exactly the categories of the expense records. */
  lemma CategoryOptionsFacts(ts: seq<Transaction>)
    ensures var cs := CategoryOptions(ts);
      && (forall i, j :: 0 <= i < j < |cs| ==> StrLt(cs[i], cs[j]))
      && (forall c :: c in cs <==> exists t :: t in ts && IsExpense(t) && t.category == c)
  {
    var d := Distinct(KeysOf(Expenses(ts), CategoryOf));
    SortDistinctStrings(d);
    forall c ensures c in d <==> exists t :: t in ts && IsExpense(t) && t.category == c {
      KeysOfMembership(Expenses(ts), CategoryOf, c);
      ExpensesMembership(ts);
    }
  }

  /** The month options are strictly decreasing (newest first, no repeats):
      every listed month is the period of some record, and every record's
      period is listed. */
  lemma MonthOptionsFacts(ts: seq<Transaction>)
    ensures forall i, j :: 0 <= i < j < |MonthOptions(ts)| ==> StrLt(MonthOptions(ts)[j], MonthOptions(ts)[i])
    ensures forall m :: m in MonthOptions(ts) <==> exists t :: t in ts && MonthOf(t.date) == m
  {
    var d := Distinct(KeysOf(ts, MonthKey));
    SortDistinctStrings(d);
    ReverseOrder(SortBy(d, StrLe), StrLt);
    forall m ensures m in d <==> exists t :: t in ts && MonthOf(t.date) == m {
      KeysOfMembership(ts, MonthKey, m);
    }
  }
}
