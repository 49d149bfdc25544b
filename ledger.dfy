/** The transaction record every component receives, and the per-record
    projections the components filter, group and add up by. */
module Ledger {
  import opened Seqs

  /** `type: "expense" | "income"`. */
  datatype Kind = Expense | Income

  /** One document of the `expenses` collection. The amount is held in
      cents so that sums are exact; dates are `YYYY-MM-DD` strings. */
  datatype Transaction = Transaction(
    kind: Kind,
    category: string,
    amount: int,
    description: string,
    date: string)

  function Amount(t: Transaction): int { t.amount }
  function CategoryOf(t: Transaction): string { t.category }
  function DateOf(t: Transaction): string { t.date }
  predicate IsExpense(t: Transaction) { t.kind == Expense }
  predicate IsIncome(t: Transaction) { t.kind == Income }

  /** `date.slice(0, 7)`: the `YYYY-MM` period of a date (the whole string
      when it is shorter than seven characters). */
  function MonthOf(date: string): (m: string)
    ensures |m| <= 7
    ensures m <= date
    ensures |date| >= 7 ==> |m| == 7
    ensures |date| < 7 ==> m == date
  {
    if |date| <= 7 then date else date[..7]
  }

  function MonthKey(t: Transaction): string { MonthOf(t.date) }

  /** `ts.filter((e) => e.type === "expense")`. */
  function Expenses(ts: seq<Transaction>): seq<Transaction> {
    Filter(ts, IsExpense)
  }

  /** A record is among the expenses exactly when it is in the list and is
      an expense. */
  lemma ExpensesMembership(ts: seq<Transaction>)
    ensures forall t :: t in Expenses(ts) <==> t in ts && IsExpense(t)
  {
    forall t ensures t in Expenses(ts) <==> t in ts && IsExpense(t) {
      FilterMembership(ts, IsExpense, t);
    }
  }

  /** `ts.filter((e) => e.type === "income")`. */
  function Incomes(ts: seq<Transaction>): seq<Transaction> {
    Filter(ts, IsIncome)
  }

  /** `ts.reduce((sum, e) => sum + e.amount, 0)`. */
  function Total(ts: seq<Transaction>): int {
    SumOf(ts, Amount)
  }

  lemma TotalExpensesSnoc(ts: seq<Transaction>, t: Transaction)
    ensures Total(Expenses(ts + [t])) == Total(Expenses(ts)) + (if IsExpense(t) then t.amount else 0)
  {
    FilterSnoc(ts, t, IsExpense);
    assert (Expenses(ts) + [t])[..|Expenses(ts)|] == Expenses(ts);
  }

  lemma TotalIncomesSnoc(ts: seq<Transaction>, t: Transaction)
    ensures Total(Incomes(ts + [t])) == Total(Incomes(ts)) + (if IsIncome(t) then t.amount else 0)
  {
    FilterSnoc(ts, t, IsIncome);
    assert (Incomes(ts) + [t])[..|Incomes(ts)|] == Incomes(ts);
  }

  /** Every record is one of the two kinds, so the income and the expense
      totals add up to the total of all records. */
  lemma {:induction false} KindsPartitionTotal(ts: seq<Transaction>)
    ensures Total(Incomes(ts)) + Total(Expenses(ts)) == Total(ts)
  {
    if ts != [] {
      var init, t := ts[..|ts| - 1], ts[|ts| - 1];
      assert ts == init + [t];
      KindsPartitionTotal(init);
      TotalExpensesSnoc(init, t);
      TotalIncomesSnoc(init, t);
    }
  }

  /** The key of each record, in order. */
  function KeysOf(ts: seq<Transaction>, key: Transaction -> string): seq<string> {
    seq(|ts|, i requires 0 <= i < |ts| => key(ts[i]))
  }

  lemma KeysOfMembership(ts: seq<Transaction>, key: Transaction -> string, k: string)
    ensures k in KeysOf(ts, key) <==> exists t :: t in ts && key(t) == k
  {
    if t :| t in ts && key(t) == k {
      var i :| 0 <= i < |ts| && ts[i] == t;
      assert KeysOf(ts, key)[i] == k;
    }
  }

  lemma KeysOfSnoc(ts: seq<Transaction>, t: Transaction, key: Transaction -> string)
    ensures KeysOf(ts + [t], key) == KeysOf(ts, key) + [key(t)]
  {
    assert forall i :: 0 <= i < |ts| ==> (ts + [t])[i] == ts[i];
  }

  /** The sum of the amounts of the records whose key is k. */
  function SumWhere(ts: seq<Transaction>, key: Transaction -> string, k: string): int {
    if ts == [] then 0
    else SumWhere(ts[..|ts| - 1], key, k) + (if key(ts[|ts| - 1]) == k then ts[|ts| - 1].amount else 0)
  }

  lemma SumWhereSnoc(ts: seq<Transaction>, t: Transaction, key: Transaction -> string, k: string)
    ensures SumWhere(ts + [t], key, k) == SumWhere(ts, key, k) + (if key(t) == k then t.amount else 0)
  {
    assert (ts + [t])[..|ts|] == ts;
  }

  /** One more record adds to an expense key sum exactly when it is an
      expense with that key. */
  lemma ExpensesSumWhereSnoc(ts: seq<Transaction>, t: Transaction, key: Transaction -> string, k: string)
    ensures SumWhere(Expenses(ts + [t]), key, k)
         == SumWhere(Expenses(ts), key, k) + (if IsExpense(t) && key(t) == k then t.amount else 0)
  {
    FilterSnoc(ts, t, IsExpense);
    SumWhereSnoc(Expenses(ts), t, key, k);
    assert Expenses(ts) + [] == Expenses(ts);
  }

  /** One more record adds to an income key sum exactly when it is an
      income with that key. */
  lemma IncomesSumWhereSnoc(ts: seq<Transaction>, t: Transaction, key: Transaction -> string, k: string)
    ensures SumWhere(Incomes(ts + [t]), key, k)
         == SumWhere(Incomes(ts), key, k) + (if IsIncome(t) && key(t) == k then t.amount else 0)
  {
    FilterSnoc(ts, t, IsIncome);
    SumWhereSnoc(Incomes(ts), t, key, k);
    assert Incomes(ts) + [] == Incomes(ts);
  }

  /** A key that no record has sums to zero. */
  lemma {:induction false} SumWhereAbsent(ts: seq<Transaction>, key: Transaction -> string, k: string)
    requires forall t :: t in ts ==> key(t) != k
    ensures SumWhere(ts, key, k) == 0
  {
    if ts != [] {
      var init := ts[..|ts| - 1];
      assert forall t :: t in init ==> t in ts;
      SumWhereAbsent(init, key, k);
    }
  }
}
