/** The analytics tab, over all of the user's records: expenses per category
    ranked by value, the leading category, the average per category, and the
    spending of the last seven day labels. */
module Analytics {
  import opened Seqs
  import opened Ledger
  import opened Aggregation

  // ---------------------------------------------------------------------
  // categories ranked by value

  /** The comparator `b.value - a.value`: larger first. */
  predicate LargerFirst(a: Bucket, b: Bucket) {
    a.total >= b.total
  }

  lemma LargerFirstTotalPreorder()
    ensures TotalPreorder(LargerFirst)
  {
  }

  /** The ranked category data. */
  function Ranking(ts: seq<Transaction>): seq<Bucket> {
    SortBy(Buckets(Expenses(ts), CategoryOf), LargerFirst)
  }

  /** The find-or-push reducer over the expense records, then the sort. */
  method CategoryRanking(ts: seq<Transaction>) returns (data: seq<Bucket>)
    ensures data == Ranking(ts)
  {
    data := SumByKey(Expenses(ts), CategoryOf);
    data := SortBy(data, LargerFirst);
  }

  /** The ranking is ordered by value, largest first; it lists each category
      of an expense record once and no other, each with the sum of that
      category's expense amounts; and its values add up to the total
      expense. */
  lemma RankingFacts(ts: seq<Transaction>, k: string)
    ensures var data := Ranking(ts);
      && SortedBy(data, LargerFirst)
      && DistinctBy(data, BucketKey)
      && (forall b :: b in data ==> b.total == SumWhere(Expenses(ts), CategoryOf, b.key))
      && ((exists b :: b in data && b.key == k) <==> (exists t :: t in ts && IsExpense(t) && t.category == k))
      && SumOf(data, BucketTotal) == Total(Expenses(ts))
  {
    var grouped := Buckets(Expenses(ts), CategoryOf);
    var data := Ranking(ts);
    LargerFirstTotalPreorder();
    SortBySorted(grouped, LargerFirst);
    BucketsDistinct(Expenses(ts), CategoryOf);
    SortByDistinctBy(grouped, LargerFirst, BucketKey);
    forall b ensures b in data <==> b in grouped {
      assert b in data <==> b in multiset(data);
      assert b in grouped <==> b in multiset(grouped);
    }
    BucketsCover(Expenses(ts), CategoryOf, k);
    ExpensesMembership(ts);
    if i :| 0 <= i < |grouped| && grouped[i].key == k {
      assert grouped[i] in grouped;
    }
    if b :| b in grouped && b.key == k {
      var i :| 0 <= i < |grouped| && grouped[i] == b;
    }
    BucketsSumToTotal(Expenses(ts), CategoryOf);
    SumOfSortBy(grouped, LargerFirst, BucketTotal);
  }

  // ---------------------------------------------------------------------
  // leading category, total, average

  /** `categoryData[0]`, absent (`undefined`) when the list is empty. */
  function TopCategory(data: seq<Bucket>): (top: Option<Bucket>)
    ensures top.Some? <==> data != []
    ensures top.Some? ==> top.value in data
  {
    if data == [] then None else Some(data[0])
  }

  /** The leading category holds the largest value, and there is one exactly
      when some record is an expense. */
  lemma TopCategoryIsLargest(ts: seq<Transaction>)
    ensures var data := Ranking(ts);
      && (TopCategory(data).None? <==> Expenses(ts) == [])
      && (TopCategory(data).Some? ==> forall b :: b in data ==> b.total <= TopCategory(data).value.total)
  {
    var data := Ranking(ts);
    var grouped := Buckets(Expenses(ts), CategoryOf);
    LargerFirstTotalPreorder();
    SortBySorted(grouped, LargerFirst);
    if Expenses(ts) != [] {
      var t := Expenses(ts)[0];
      assert KeysOf(Expenses(ts), CategoryOf)[0] == CategoryOf(t);
      assert CategoryOf(t) in Distinct(KeysOf(Expenses(ts), CategoryOf));
    }
    if data != [] {
      forall b | b in data ensures b.total <= data[0].total {
        var i :| 0 <= i < |data| && data[i] == b;
        if i > 0 {
          assert LargerFirst(data[0], data[i]);
        }
      }
    }
  }

  /** `categoryData.reduce((sum, cat) => sum + cat.value, 0)`. */
  function TotalSpent(data: seq<Bucket>): int {
    SumOf(data, BucketTotal)
  }

  /** `totalSpent / categoryData.length || 0`: the average value per
      category, 0 when there is none (0/0 is NaN, and `NaN || 0` is 0). */
  function AveragePerCategory(data: seq<Bucket>): (avg: real)
    ensures data == [] ==> avg == 0.0
    ensures data != [] ==> avg * (|data| as real) == TotalSpent(data) as real
  {
    if data == [] then 0.0 else TotalSpent(data) as real / (|data| as real)
  }

  /** An average is at most the largest value averaged. */
  lemma AverageAtMostLargest(data: seq<Bucket>, m: int)
    requires data != []
    requires forall b :: b in data ==> b.total <= m
    ensures AveragePerCategory(data) <= m as real
  {
    SumOfAtMostCountTimesMax(data, BucketTotal, m);
    var n := |data| as real;
    var avg := AveragePerCategory(data);
    assert avg * n <= (m as real) * n;
  }

  /** The total spent is the total expense, and the average never exceeds the
      leading category's value. */
  lemma AverageFacts(ts: seq<Transaction>)
    ensures TotalSpent(Ranking(ts)) == Total(Expenses(ts))
    ensures Ranking(ts) != [] ==> AveragePerCategory(Ranking(ts)) <= TopCategory(Ranking(ts)).value.total as real
  {
    var data := Ranking(ts);
    RankingFacts(ts, "");
    if data != [] {
      TopCategoryIsLargest(ts);
      AverageAtMostLargest(data, data[0].total);
    }
  }

  // ---------------------------------------------------------------------
  // the last seven day labels

  /** The day key of a record: `new Date(e.date).toLocaleDateString(...)`,
      which the model takes as the given labelling function. */
  function DayKey(dayLabel: string -> string): Transaction -> string {
    (t: Transaction) => dayLabel(t.date)
  }

  /** The number of entries the trend keeps: `slice(-7)`. */
  const TrendLength: nat := 7

  /** The find-or-push reducer over the expense records keyed by day label,
      then `slice(-7)`. */
  method RecentDailySpending(ts: seq<Transaction>, dayLabel: string -> string) returns (days: seq<Bucket>)
    ensures days == TakeLast(Buckets(Expenses(ts), DayKey(dayLabel)), TrendLength)
  {
    var all := SumByKey(Expenses(ts), DayKey(dayLabel));
    days := TakeLast(all, TrendLength);
  }

  /** At most seven entries, with distinct labels, each holding the sum of
      the expenses with its label; they are the last entries of the full
      series, and when there are at most seven labels nothing is dropped and
      the entries add up to the total expense. */
  lemma RecentDailySpendingFacts(ts: seq<Transaction>, dayLabel: string -> string)
    ensures var all := Buckets(Expenses(ts), DayKey(dayLabel));
      var days := TakeLast(all, TrendLength);
      && |days| <= TrendLength
      && DistinctBy(days, BucketKey)
      && (forall b :: b in days ==> b.total == SumWhere(Expenses(ts), DayKey(dayLabel), b.key))
      && days == all[|all| - |days|..]
      && (|all| <= TrendLength ==> SumOf(days, BucketTotal) == Total(Expenses(ts)))
  {
    var all := Buckets(Expenses(ts), DayKey(dayLabel));
    BucketsDistinct(Expenses(ts), DayKey(dayLabel));
    BucketsSumToTotal(Expenses(ts), DayKey(dayLabel));
    TakeLastSuffix(all, TrendLength, BucketKey);
  }
}
