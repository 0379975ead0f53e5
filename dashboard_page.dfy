/**
 * The Dashboard page of the Spring frontend: the filter state, the in-memory filtering of the fetched
 * transactions, and the category choices offered by the filter.
 */
module DashboardPage {
  import opened Text
  import opened FrontendApi
  import Seqs

  /** The category choice that switches the category filter off. */
  const AllCategories := "All"

  /** What each of the three filters keeps; "All" and the empty date switch a filter off. */
  predicate KeptByCategory(t: Transaction, category: string) { category == AllCategories || t.category == category }
  predicate KeptByStart(t: Transaction, startDate: string) { startDate == "" || LexLe(startDate, t.date) }
  predicate KeptByEnd(t: Transaction, endDate: string) { endDate == "" || LexLe(t.date, endDate) }

  predicate Shown(t: Transaction, category: string, startDate: string, endDate: string)
  {
    KeptByCategory(t, category) && KeptByStart(t, startDate) && KeptByEnd(t, endDate)
  }

  function ShownBy(category: string, startDate: string, endDate: string): Transaction -> bool
  {
    (t: Transaction) => Shown(t, category, startDate, endDate)
  }

  /**
   * The transactions all three filters keep, in their fetched order: a reference definition of
   * getFilteredTransactions as a single pass.
   */
  function Visible(ts: seq<Transaction>, category: string, startDate: string, endDate: string): (r: seq<Transaction>)
    ensures forall t :: t in r <==> t in ts && Shown(t, category, startDate, endDate)
    ensures Seqs.IsSubsequence(r, ts)
  {
    Seqs.Filter(ts, ShownBy(category, startDate, endDate))
  }

  /** With the initial filters ('All', '', '') every transaction is shown, in order. */
  lemma DefaultFiltersShowAll(ts: seq<Transaction>)
    ensures Visible(ts, AllCategories, "", "") == ts
  {
    Seqs.FilterKeepsAll(ts, ShownBy(AllCategories, "", ""));
  }

  /** A category filter other than 'All' keeps exactly the transactions of that category. */
  lemma CategoryFilterIsExact(ts: seq<Transaction>, category: string)
    requires category != AllCategories
    ensures forall t :: t in Visible(ts, category, "", "") <==> t in ts && t.category == category
  {
  }

  function CategoryIs(c: string): Transaction -> bool { (t: Transaction) => t.category == c }
  function StartsBy(d: string): Transaction -> bool { (t: Transaction) => LexLe(d, t.date) }
  function EndsBy(d: string): Transaction -> bool { (t: Transaction) => LexLe(t.date, d) }
  function CategoryAndStart(c: string, d: string): Transaction -> bool
  {
    (t: Transaction) => KeptByCategory(t, c) && KeptByStart(t, d)
  }

  lemma CategoryStep(ts: seq<Transaction>, c: string, out: seq<Transaction>)
    requires out == if c != AllCategories then Seqs.Filter(ts, CategoryIs(c)) else ts
    ensures out == Seqs.Filter(ts, ShownBy(c, "", ""))
  {
    if c != AllCategories {
      Seqs.FilterAgrees(ts, CategoryIs(c), ShownBy(c, "", ""));
    } else {
      Seqs.FilterKeepsAll(ts, ShownBy(c, "", ""));
    }
  }

  lemma StartStep(ts: seq<Transaction>, d: string, out: seq<Transaction>)
    requires out == if d != "" then Seqs.Filter(ts, StartsBy(d)) else ts
    ensures out == Seqs.Filter(ts, ShownBy(AllCategories, d, ""))
  {
    if d != "" {
      Seqs.FilterAgrees(ts, StartsBy(d), ShownBy(AllCategories, d, ""));
    } else {
      Seqs.FilterKeepsAll(ts, ShownBy(AllCategories, d, ""));
    }
  }

  lemma EndStep(ts: seq<Transaction>, d: string, out: seq<Transaction>)
    requires out == if d != "" then Seqs.Filter(ts, EndsBy(d)) else ts
    ensures out == Seqs.Filter(ts, ShownBy(AllCategories, "", d))
  {
    if d != "" {
      Seqs.FilterAgrees(ts, EndsBy(d), ShownBy(AllCategories, "", d));
    } else {
      Seqs.FilterKeepsAll(ts, ShownBy(AllCategories, "", d));
    }
  }

  /** The three filters applied one after the other are the single-pass Visible. */
  lemma Composed(ts: seq<Transaction>, c: string, start: string, end: string)
    ensures Seqs.Filter(Seqs.Filter(Seqs.Filter(ts, ShownBy(c, "", "")), ShownBy(AllCategories, start, "")), ShownBy(AllCategories, "", end))
            == Visible(ts, c, start, end)
  {
    Seqs.FilterThenFilter(ts, ShownBy(c, "", ""), ShownBy(AllCategories, start, ""), CategoryAndStart(c, start));
    Seqs.FilterThenFilter(ts, CategoryAndStart(c, start), ShownBy(AllCategories, "", end), ShownBy(c, start, end));
  }

  function Categories(ts: seq<Transaction>): (cs: seq<string>)
    ensures |cs| == |ts| && forall i :: 0 <= i < |ts| ==> cs[i] == ts[i].category
  {
    if ts == [] then [] else [ts[0].category] + Categories(ts[1..])
  }

  /**
   * `['All', ...new Set(transactions.map(t => t.category))]`: 'All', then every category of the
   * transactions once, in order of first appearance.
   */
  function UniqueCategories(ts: seq<Transaction>): (r: seq<string>)
    ensures |r| >= 1 && r[0] == AllCategories
    ensures Seqs.NoDuplicates(r[1..])
    ensures forall c :: c in r[1..] <==> exists t :: t in ts && t.category == c
    ensures forall i :: 1 <= i < |r| ==> r[i] in Categories(ts)
    ensures forall i, j :: 1 <= i < j < |r| ==> Seqs.FirstIndex(Categories(ts), r[i]) < Seqs.FirstIndex(Categories(ts), r[j])
  {
    var names := Categories(ts);
    Seqs.DedupSpec(names);
    var d := Seqs.Dedup(names);
    var r := [AllCategories] + d;
    assert r[1..] == d;
    forall c | c in d
      ensures exists t :: t in ts && t.category == c
    {
      var k :| 0 <= k < |names| && names[k] == c;
      assert ts[k] in ts;
    }
    forall t | t in ts
      ensures t.category in d
    {
      var k :| 0 <= k < |ts| && ts[k] == t;
      assert names[k] == t.category;
    }
    r
  }

  class Dashboard {
    var transactions: seq<Transaction>
    var filterCategory: string
    var startDate: string
    var endDate: string

    constructor ()
      ensures transactions == [] && filterCategory == AllCategories && startDate == "" && endDate == ""
    {
      transactions := [];
      filterCategory := AllCategories;
      startDate := "";
      endDate := "";
    }

    method HandleClearFilters()
      modifies this
      ensures filterCategory == AllCategories && startDate == "" && endDate == ""
      ensures transactions == old(transactions)
    {
      filterCategory := AllCategories;
      startDate := "";
      endDate := "";
    }

    /**
     * getFilteredTransactions: a copy of the state, narrowed by each filter that is switched on, one
     * after the other. The state itself is only read.
     */
    method GetFilteredTransactions() returns (filtered: seq<Transaction>)
      ensures filtered == Visible(transactions, filterCategory, startDate, endDate)
    {
      filtered := transactions;
      if filterCategory != AllCategories {
        filtered := Seqs.Filter(filtered, CategoryIs(filterCategory));
      }
      CategoryStep(transactions, filterCategory, filtered);
      var afterCategory := filtered;
      if startDate != "" {
        filtered := Seqs.Filter(filtered, StartsBy(startDate));
      }
      StartStep(afterCategory, startDate, filtered);
      var afterStart := filtered;
      if endDate != "" {
        filtered := Seqs.Filter(filtered, EndsBy(endDate));
      }
      EndStep(afterStart, endDate, filtered);
      Composed(transactions, filterCategory, startDate, endDate);
    }
  }
}
