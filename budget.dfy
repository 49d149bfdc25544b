/** The spending goals panel: per goal, the expense spent in its category,
    the share of the limit used (capped at 100%), the over-budget flag, the
    bar colour and the overage; plus the goal list the subscription
    delivers and the form that adds a goal. */
module Budgets {
  import opened Seqs
  import opened Ledger
  import opened Aggregation

  /** One document of the `budgets` collection (its id left out); the limit
      in cents. */
  datatype Budget = Budget(category: string, limit: int)

  // ---------------------------------------------------------------------
  // what one goal shows

  /** `getCategoryExpenses`: the amounts of the expense records of the
      category, added up. */
  function Spent(ts: seq<Transaction>, category: string): int {
    Total(Filter(ts, (t: Transaction) => t.category == category && IsExpense(t)))
  }

  lemma SpentSnoc(ts: seq<Transaction>, t: Transaction, category: string)
    ensures Spent(ts + [t], category)
         == Spent(ts, category) + (if t.category == category && IsExpense(t) then t.amount else 0)
  {
    var p := (t: Transaction) => t.category == category && IsExpense(t);
    FilterSnoc(ts, t, p);
    assert (Filter(ts, p) + [t])[..|Filter(ts, p)|] == Filter(ts, p);
  }

  /** What a goal counts is what the category charts show for that category:
      the category's sum over the expense records. */
  lemma {:induction false} SpentIsCategorySum(ts: seq<Transaction>, category: string)
    ensures Spent(ts, category) == SumWhere(Expenses(ts), CategoryOf, category)
  {
    if ts != [] {
      var init, t := ts[..|ts| - 1], ts[|ts| - 1];
      assert ts == init + [t];
      SpentIsCategorySum(init, category);
      SpentSnoc(init, t, category);
      ExpensesSumWhereSnoc(init, t, CategoryOf, category);
    }
  }

  /** With no negative amounts, nothing negative is spent. */
  lemma {:induction false} SpentNonNegative(ts: seq<Transaction>, category: string)
    requires forall t :: t in ts ==> t.amount >= 0
    ensures Spent(ts, category) >= 0
  {
    if ts != [] {
      var init, t := ts[..|ts| - 1], ts[|ts| - 1];
      assert ts == init + [t];
      assert forall u :: u in init ==> u in ts;
      SpentNonNegative(init, category);
      SpentSnoc(init, t, category);
    }
  }

  /** `Math.min((spent / limit) * 100, 100)`, for a positive limit (a zero
      limit divides by zero in the component). */
  function Percentage(spent: int, limit: int): (p: real)
    requires limit > 0
    ensures p <= 100.0
    ensures spent >= 0 ==> p >= 0.0
    ensures p == 100.0 <==> spent >= limit
    ensures p < 100.0 ==> p * (limit as real) == 100.0 * (spent as real)
  {
    var ratio := (spent as real) / (limit as real) * 100.0;
    assert ratio * (limit as real) == 100.0 * (spent as real);
    assert ratio >= 100.0 <==> spent >= limit by {
      if spent >= limit {
        assert ratio * (limit as real) >= 100.0 * (limit as real);
      } else {
        assert ratio * (limit as real) < 100.0 * (limit as real);
      }
    }
    if ratio < 100.0 then ratio else 100.0
  }

  /** `spent > budget.limit`. */
  predicate IsOverBudget(spent: int, limit: int) {
    spent > limit
  }

  /** Over budget, the bar is full. */
  lemma OverBudgetFillsBar(spent: int, limit: int)
    requires limit > 0 && IsOverBudget(spent, limit)
    ensures Percentage(spent, limit) == 100.0
  {
  }

  /** The bar's colour: red over budget, else amber above 80%, else green. */
  datatype BarColor = Red | Amber | Green

  function BarColorOf(spent: int, limit: int): (c: BarColor)
    requires limit > 0
  {
    if IsOverBudget(spent, limit) then Red
    else if Percentage(spent, limit) > 80.0 then Amber
    else Green
  }

  /** The colours in whole numbers: red exactly when more than the limit is
      spent, amber when at most the limit but more than four fifths of it,
      green when at most four fifths. */
  lemma BarColorBands(spent: int, limit: int)
    requires limit > 0
    ensures BarColorOf(spent, limit) == Red <==> spent > limit
    ensures BarColorOf(spent, limit) == Amber <==> spent <= limit && 5 * spent > 4 * limit
    ensures BarColorOf(spent, limit) == Green <==> 5 * spent <= 4 * limit
  {
    var p := Percentage(spent, limit);
    if p < 100.0 {
      AboveEightyPercent(p, spent as real, limit as real);
      assert (100 * spent) as real == 100.0 * (spent as real);
      assert (80 * limit) as real == 80.0 * (limit as real);
    }
  }

  /** p% of l is s: p is above 80 exactly when s is above 80% of l. */
  lemma AboveEightyPercent(p: real, s: real, l: real)
    requires l > 0.0 && p * l == 100.0 * s
    ensures p > 80.0 <==> 100.0 * s > 80.0 * l
  {
    if p > 80.0 {
      assert p * l > 80.0 * l;
    } else {
      assert p * l <= 80.0 * l;
    }
  }

  /** The percentage label is red over budget and green otherwise. */
  function LabelIsRed(spent: int, limit: int): (red: bool)
    ensures red <==> BarColorOf(spent, limit) == Red
    requires limit > 0
  {
    IsOverBudget(spent, limit)
  }

  /** The "limit exceeded by" notice: present only over budget, holding
      `spent - budget.limit`. */
  function Overage(spent: int, limit: int): (o: Option<int>)
    ensures o.Some? <==> IsOverBudget(spent, limit)
    ensures o.Some? ==> o.value > 0 && spent == limit + o.value
  {
    if IsOverBudget(spent, limit) then Some(spent - limit) else None
  }

  // ---------------------------------------------------------------------
  // the goal list and the add form

  /** The goal list: `budgets`, replaced by each snapshot. */
  class GoalList {
    var budgets: seq<Budget>

    constructor()
      ensures budgets == []
    {
      budgets := [];
    }

    /** The snapshot handler: pushes each document onto a fresh list, then
        replaces the goals with it. */
    method OnSnapshot(docs: seq<Budget>)
      modifies this
      ensures budgets == docs
    {
      var list: seq<Budget> := [];
      for i := 0 to |docs|
        invariant list == docs[..i]
      {
        list := list + [docs[i]];
      }
      budgets := list;
    }
  }

  /** The goal written by a submit: the category and the limit as typed
      (`parseFloat` of the text is not modelled). */
  datatype GoalRequest = GoalRequest(category: string, limitText: string)

  /** The add form: `newBudget` and `showForm`. */
  class GoalForm {
    var category: string
    var limitText: string
    var showForm: bool

    constructor()
      ensures category == "" && limitText == "" && !showForm
    {
      category, limitText, showForm := "", "", false;
    }

    /** The "new goal" button. */
    method Toggle()
      modifies this
      ensures showForm == !old(showForm)
      ensures category == old(category) && limitText == old(limitText)
    {
      showForm := !showForm;
    }

    /** The cancel button. */
    method Cancel()
      modifies this
      ensures !showForm
      ensures category == old(category) && limitText == old(limitText)
    {
      showForm := false;
    }

    method EditCategory(value: string)
      modifies this
      ensures category == value
      ensures limitText == old(limitText) && showForm == old(showForm)
    {
      category := value;
    }

    method EditLimit(value: string)
      modifies this
      ensures limitText == value
      ensures category == old(category) && showForm == old(showForm)
    {
      limitText := value;
    }

    /** `handleAddBudget`: with an empty field nothing is written and nothing
        changes; otherwise the goal is written, and when the store accepts
        it (`stored`) the fields are emptied and the form closes, while a
        failed write leaves the form as it was. */
    method Submit(stored: bool) returns (request: Option<GoalRequest>)
      modifies this
      ensures request.None? <==> old(category) == "" || old(limitText) == ""
      ensures request.Some? ==> request.value == GoalRequest(old(category), old(limitText))
      ensures if request.Some? && stored
        then category == "" && limitText == "" && !showForm
        else category == old(category) && limitText == old(limitText) && showForm == old(showForm)
    {
      if category == "" || limitText == "" {
        return None;
      }
      request := Some(GoalRequest(category, limitText));
      if stored {
        category, limitText := "", "";
        showForm := false;
      }
    }
  }
}
