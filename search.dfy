/** The search box: a case-insensitive substring search over the
    description and the category of every record, and the choice of one
    result, which hands the record to the dashboard and clears the box. */
module Search {
  import opened Seqs
  import opened Text
  import opened Ledger

  /** The record's description or its category contains the term, both
      lowercased. */
  predicate Matches(t: Transaction, term: string) {
    Contains(Lower(t.description), Lower(term)) || Contains(Lower(t.category), Lower(term))
  }

  /** `filteredExpenses`: nothing for the empty term, otherwise the matching
      records in their original order. */
  function Results(ts: seq<Transaction>, term: string): (r: seq<Transaction>)
    ensures term == "" ==> r == []
    ensures |r| <= |ts|
  {
    if term == "" then [] else Filter(ts, (t: Transaction) => Matches(t, term))
  }

  /** A record is a result exactly when the term is not empty, the record is
      in the list, and the lowercased term occurs at some position of its
      lowercased description or category. */
  lemma ResultsMembership(ts: seq<Transaction>, term: string, t: Transaction)
    ensures t in Results(ts, term) <==>
      && term != ""
      && t in ts
      && ((exists i :: 0 <= i <= |t.description| && OccursAt(Lower(t.description), Lower(term), i))
          || (exists i :: 0 <= i <= |t.category| && OccursAt(Lower(t.category), Lower(term), i)))
  {
    if term != "" {
      FilterMembership(ts, (t: Transaction) => Matches(t, term), t);
      ContainsIff(Lower(t.description), Lower(term));
      ContainsIff(Lower(t.category), Lower(term));
    }
  }

  /** The results keep the order of the record list. */
  lemma ResultsInOrder(ts: seq<Transaction>, term: string)
    ensures IsSubsequence(Results(ts, term), ts)
  {
    if term == "" {
      var idx: seq<nat> := [];
      assert Embeds(idx, Results(ts, term), ts);
    } else {
      FilterIsSubsequence(ts, (t: Transaction) => Matches(t, term));
    }
  }

  /** Terms that lowercase alike find the same records. */
  lemma ResultsIgnoreCase(ts: seq<Transaction>, a: string, b: string)
    requires Lower(a) == Lower(b)
    ensures Results(ts, a) == Results(ts, b)
  {
    assert |a| == |Lower(a)| == |b|;
    if a != "" {
      FilterCongruent(ts, (t: Transaction) => Matches(t, a), (t: Transaction) => Matches(t, b));
    }
  }

  lemma LowerConcat(a: string, b: string)
    ensures Lower(a + b) == Lower(a) + Lower(b)
  {
    assert forall i :: 0 <= i < |a + b| ==> Lower(a + b)[i] == LowerChar((a + b)[i]);
  }

  /** Typing more characters only narrows the results: a record that matches
      a term also matches every non-empty prefix of it. */
  lemma ResultsNarrow(ts: seq<Transaction>, a: string, b: string, t: Transaction)
    requires a != ""
    requires t in Results(ts, a + b)
    ensures t in Results(ts, a)
  {
    LowerConcat(a, b);
    FilterMembership(ts, (t: Transaction) => Matches(t, a + b), t);
    FilterMembership(ts, (t: Transaction) => Matches(t, a), t);
    if Contains(Lower(t.description), Lower(a + b)) {
      ContainsPrefix(Lower(t.description), Lower(a), Lower(b));
    } else {
      ContainsPrefix(Lower(t.category), Lower(a), Lower(b));
    }
  }

  /** Every record with a non-empty description is found by searching for
      its description, in any letter case. */
  lemma DescriptionFindsRecord(ts: seq<Transaction>, t: Transaction, term: string)
    requires t in ts && t.description != ""
    requires Lower(term) == Lower(t.description)
    ensures t in Results(ts, term)
  {
    ResultsMembership(ts, term, t);
    var l := Lower(t.description);
    assert OccursAt(l, l, 0) by {
      assert l[0..|l|] == l;
    }
  }

  /** What opens under the box: nothing while the term is empty, the list of
      results, or the "no transaction found" card. */
  datatype Panel = Hidden | ResultList(items: seq<Transaction>) | NoMatch

  function PanelFor(ts: seq<Transaction>, term: string): (p: Panel)
    ensures p.Hidden? <==> term == ""
    ensures p.NoMatch? <==> term != "" && forall t :: t in ts ==> !Matches(t, term)
    ensures p.ResultList? ==> p.items != [] && forall t :: t in p.items <==> t in ts && Matches(t, term)
  {
    var r := Results(ts, term);
    if term == "" then Hidden
    else if r == [] then
      assert forall t :: t in ts ==> !Matches(t, term) by {
        forall t | t in ts ensures !Matches(t, term) {
          FilterMembership(ts, (t: Transaction) => Matches(t, term), t);
        }
      }
      NoMatch
    else
      assert forall t :: t in r <==> t in ts && Matches(t, term) by {
        forall t ensures t in r <==> t in ts && Matches(t, term) {
          FilterMembership(ts, (t: Transaction) => Matches(t, term), t);
        }
      }
      assert exists t :: t in ts && Matches(t, term) by {
        assert r[0] in r;
      }
      ResultList(r)
  }

  /** The sign and amount shown on a result: `+ Kz 12.50` or `- Kz 12.50`. */
  function AmountLabel(t: Transaction): (text: string)
    ensures |text| >= 5 && text[1..5] == " Kz "
    ensures text[0] == (if t.kind == Income then '+' else '-')
    ensures var s := text[5..];
      (IsFixed2(s) || (|s| >= 1 && s[0] == '-' && IsFixed2(s[1..]))) && ParseCents(s) == t.amount
  {
    FormatCentsRoundTrip(t.amount);
    var text := [if t.kind == Income then '+' else '-'] + " Kz " + FormatCents(t.amount);
    assert text[5..] == FormatCents(t.amount);
    text
  }

  /** The state of the box: the term typed so far. */
  class SearchBox {
    var term: string

    constructor()
      ensures term == ""
    {
      term := "";
    }

    /** `onChange`: the box holds what was typed. */
    method Type(value: string)
      modifies this
      ensures term == value
    {
      term := value;
    }

    /** The clear button. */
    method Clear()
      modifies this
      ensures term == ""
    {
      term := "";
    }

    /** The results currently listed. */
    function Shown(ts: seq<Transaction>): seq<Transaction>
      reads this
    {
      Results(ts, term)
    }

    /** Clicking the i-th result: the record goes to `onSelect` (returned
        here) and the box empties, which closes the panel. */
    method Choose(ts: seq<Transaction>, i: nat) returns (chosen: Transaction)
      requires i < |Shown(ts)|
      modifies this
      ensures chosen == old(Shown(ts))[i]
      ensures chosen in ts && Matches(chosen, old(term))
      ensures term == "" && Shown(ts) == []
    {
      var typed := term;
      chosen := Results(ts, typed)[i];
      assert chosen in Results(ts, typed);
      FilterMembership(ts, (t: Transaction) => Matches(t, typed), chosen);
      term := "";
    }
  }
}
