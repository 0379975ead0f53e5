/**
 * The Node server's transaction model: an owner-scoped `transactions` table and the queries the
 * model functions run against it. The SQL text is not modelled; what it denotes is — the WHERE
 * predicate, ORDER BY, SUM with NULL coalescing, GROUP BY — over the table's rows.
 */
module NodeTransactionModel {
  import opened Wrappers
  import opened Text
  import opened Json
  import Seqs

  /** One row of `transactions`: amount is signed (positive income, negative expense). */
  datatype Txn = Txn(id: int, userId: int, amount: real, description: string, transactionDate: string, category: string)

  /** The `filters` object; `None` is an absent query parameter. */
  datatype Filters = Filters(category: Option<string>, startDate: Option<string>, endDate: Option<string>)

  /** The date part of a filter set: all that the category summary reads. */
  datatype DateRange = DateRange(startDate: Option<string>, endDate: Option<string>)

  function DatesOf(f: Filters): DateRange { DateRange(f.startDate, f.endDate) }

  /** `if (filters.x)`: a filter applies only when its value is truthy (present and non-empty). */
  predicate Given(o: Option<string>) { o.Some? && o.value != "" }

  /** transaction_date >= startDate AND transaction_date <= endDate, each bound only when given. */
  predicate InDateRange(t: Txn, r: DateRange)
  {
    && (Given(r.startDate) ==> LexLe(r.startDate.value, t.transactionDate))
    && (Given(r.endDate) ==> LexLe(t.transactionDate, r.endDate.value))
  }

  /** The WHERE clause of getTransactions and getFinancialSummary. */
  predicate Matches(t: Txn, userId: int, f: Filters)
  {
    && t.userId == userId
    && (Given(f.category) ==> t.category == f.category.value)
    && InDateRange(t, DatesOf(f))
  }

  predicate UniqueIds(rows: seq<Txn>)
  {
    forall i, j :: 0 <= i < j < |rows| ==> rows[i].id != rows[j].id
  }

  function Matching(userId: int, f: Filters): Txn -> bool
  {
    (t: Txn) => Matches(t, userId, f)
  }

  /** The rows selected by the WHERE clause, in table order. */
  function Selected(rows: seq<Txn>, userId: int, f: Filters): (r: seq<Txn>)
    ensures forall t :: t in r <==> t in rows && Matches(t, userId, f)
    ensures forall t :: multiset(r)[t] == if Matches(t, userId, f) then multiset(rows)[t] else 0
    ensures Seqs.IsSubsequence(r, rows)
  {
    Seqs.Filter(rows, Matching(userId, f))
  }

  lemma {:induction false} SubsequenceKeepsUniqueIds(r: seq<Txn>, s: seq<Txn>)
    requires Seqs.IsSubsequence(r, s) && UniqueIds(s)
    ensures UniqueIds(r)
  {
    if r != [] {
      if r[0] == s[0] && Seqs.IsSubsequence(r[1..], s[1..]) {
        SubsequenceKeepsUniqueIds(r[1..], s[1..]);
        Seqs.SubsequenceMembers(r[1..], s[1..]);
        forall j | 1 <= j < |r|
          ensures r[0].id != r[j].id
        {
          assert r[j] in r[1..];
          var k :| 0 <= k < |s[1..]| && s[1..][k] == r[j];
          assert s[k + 1] == r[j];
        }
      } else {
        SubsequenceKeepsUniqueIds(r, s[1..]);
      }
    }
  }

  // ---------------------------------------------------------------------------------------------
  // ORDER BY transaction_date DESC, id DESC

  /** a comes before b: a later date, or the same date and a larger id. */
  predicate ListedBefore(a: Txn, b: Txn)
  {
    LexLess(b.transactionDate, a.transactionDate) || (a.transactionDate == b.transactionDate && a.id > b.id)
  }

  /** No row is listed before one that precedes it. */
  predicate NewestFirst(s: seq<Txn>)
  {
    forall i, j :: 0 <= i < j < |s| ==> !ListedBefore(s[j], s[i])
  }

  lemma ListedBeforeOrder(a: Txn, b: Txn, c: Txn)
    ensures ListedBefore(a, b) ==> !ListedBefore(b, a)
    ensures ListedBefore(a, b) && ListedBefore(b, c) ==> ListedBefore(a, c)
    ensures !ListedBefore(a, b) && !ListedBefore(b, c) ==> !ListedBefore(a, c)
    ensures a.id != b.id ==> ListedBefore(a, b) || ListedBefore(b, a)
  {
    LexLessTrichotomy(a.transactionDate, b.transactionDate);
    LexLessTrichotomy(b.transactionDate, c.transactionDate);
    LexLessTrichotomy(a.transactionDate, c.transactionDate);
    if LexLess(c.transactionDate, b.transactionDate) && LexLess(b.transactionDate, a.transactionDate) {
      LexLessTransitive(c.transactionDate, b.transactionDate, a.transactionDate);
    }
    if LexLess(a.transactionDate, b.transactionDate) && LexLess(b.transactionDate, c.transactionDate) {
      LexLessTransitive(a.transactionDate, b.transactionDate, c.transactionDate);
    }
  }

  /** Insertion into a newest-first list: after every row listed before x, ahead of the rest. */
  function InsertNewestFirst(s: seq<Txn>, x: Txn): (r: seq<Txn>)
    requires NewestFirst(s)
    ensures NewestFirst(r)
    ensures multiset(r) == multiset(s) + multiset{x}
  {
    if s == [] then [x]
    else if ListedBefore(s[0], x) then
      var rest := InsertNewestFirst(s[1..], x);
      InsertBehindHead(s, x, rest);
      [s[0]] + rest
    else
      InsertAtFront(s, x);
      [x] + s
  }

  lemma InsertBehindHead(s: seq<Txn>, x: Txn, rest: seq<Txn>)
    requires NewestFirst(s) && s != [] && ListedBefore(s[0], x)
    requires NewestFirst(rest) && multiset(rest) == multiset(s[1..]) + multiset{x}
    ensures NewestFirst([s[0]] + rest)
    ensures multiset([s[0]] + rest) == multiset(s) + multiset{x}
  {
    assert s == [s[0]] + s[1..];
    forall j | 0 <= j < |rest|
      ensures !ListedBefore(rest[j], s[0])
    {
      assert rest[j] in multiset(rest);
      if rest[j] == x {
        ListedBeforeOrder(s[0], x, s[0]);
      } else {
        assert rest[j] in multiset(s[1..]);
        var k :| 0 <= k < |s[1..]| && s[1..][k] == rest[j];
        assert s[k + 1] == rest[j];
      }
    }
    var r := [s[0]] + rest;
    forall i, j | 0 <= i < j < |r|
      ensures !ListedBefore(r[j], r[i])
    {
      if i > 0 {
        assert r[i] == rest[i - 1] && r[j] == rest[j - 1];
      }
    }
  }

  lemma InsertAtFront(s: seq<Txn>, x: Txn)
    requires NewestFirst(s) && (s != [] ==> !ListedBefore(s[0], x))
    ensures NewestFirst([x] + s)
  {
    var r := [x] + s;
    forall i, j | 0 <= i < j < |r|
      ensures !ListedBefore(r[j], r[i])
    {
      if i == 0 {
        ListedBeforeOrder(s[j - 1], s[0], x);
      } else {
        assert r[i] == s[i - 1] && r[j] == s[j - 1];
      }
    }
  }

  /** Insertion sort into newest-first order; the rows are permuted, never added or dropped. */
  function SortNewestFirst(s: seq<Txn>): (r: seq<Txn>)
    ensures NewestFirst(r)
    ensures multiset(r) == multiset(s)
  {
    if s == [] then []
    else
      assert s == [s[0]] + s[1..];
      InsertNewestFirst(SortNewestFirst(s[1..]), s[0])
  }

  /** getTransactions: the owner's matching rows, newest first. */
  function ListTransactions(rows: seq<Txn>, userId: int, f: Filters): (r: seq<Txn>)
    ensures forall t :: t in r <==> t in rows && Matches(t, userId, f)
    ensures forall t :: multiset(r)[t] == if Matches(t, userId, f) then multiset(rows)[t] else 0
    ensures NewestFirst(r)
  {
    SortNewestFirst(Selected(rows, userId, f))
  }

  /** Insertion keeps ids distinct when x's id is new. */
  lemma {:induction false} InsertKeepsUniqueIds(s: seq<Txn>, x: Txn)
    requires NewestFirst(s) && UniqueIds(s) && forall t :: t in s ==> t.id != x.id
    ensures UniqueIds(InsertNewestFirst(s, x))
  {
    if s != [] && ListedBefore(s[0], x) {
      var rest := InsertNewestFirst(s[1..], x);
      assert forall t :: t in s[1..] ==> t in s;
      InsertKeepsUniqueIds(s[1..], x);
      var r := [s[0]] + rest;
      assert r == InsertNewestFirst(s, x);
      forall i, j | 0 <= i < j < |r|
        ensures r[i].id != r[j].id
      {
        if i == 0 {
          assert r[j] == rest[j - 1] && rest[j - 1] in multiset(rest);
          if r[j] != x {
            assert r[j] in multiset(s[1..]);
            var k :| 0 <= k < |s[1..]| && s[1..][k] == r[j];
            assert s[k + 1] == r[j];
          }
        } else {
          assert r[i] == rest[i - 1] && r[j] == rest[j - 1];
        }
      }
    } else if s != [] {
      var r := [x] + s;
      assert r == InsertNewestFirst(s, x);
      forall i, j | 0 <= i < j < |r|
        ensures r[i].id != r[j].id
      {
        assert r[j] == s[j - 1];
        if i > 0 {
          assert r[i] == s[i - 1];
        }
      }
    }
  }

  lemma {:induction false} SortKeepsUniqueIds(s: seq<Txn>)
    requires UniqueIds(s)
    ensures UniqueIds(SortNewestFirst(s))
  {
    if s != [] {
      var tail := SortNewestFirst(s[1..]);
      SortKeepsUniqueIds(s[1..]);
      forall t | t in tail
        ensures t.id != s[0].id
      {
        assert t in multiset(s[1..]);
        var k :| 0 <= k < |s[1..]| && s[1..][k] == t;
        assert s[k + 1] == t;
      }
      InsertKeepsUniqueIds(tail, s[0]);
    }
  }

  /** Newest-first with distinct ids is strictly ordered. */
  lemma StrictWhenIdsDiffer(r: seq<Txn>)
    requires NewestFirst(r) && UniqueIds(r)
    ensures forall i, j :: 0 <= i < j < |r| ==> ListedBefore(r[i], r[j])
  {
    forall i, j | 0 <= i < j < |r|
      ensures ListedBefore(r[i], r[j])
    {
      ListedBeforeOrder(r[i], r[j], r[i]);
    }
  }

  /**
   * With distinct ids the order is strict: each row has a later date than the next, or the same
   * date and a larger id.
   */
  lemma ListingIsStrictlyOrdered(rows: seq<Txn>, userId: int, f: Filters)
    requires UniqueIds(rows)
    ensures UniqueIds(ListTransactions(rows, userId, f))
    ensures forall i, j :: 0 <= i < j < |ListTransactions(rows, userId, f)| ==>
              ListedBefore(ListTransactions(rows, userId, f)[i], ListTransactions(rows, userId, f)[j])
  {
    var sel := Selected(rows, userId, f);
    SubsequenceKeepsUniqueIds(sel, rows);
    SortKeepsUniqueIds(sel);
    StrictWhenIdsDiffer(ListTransactions(rows, userId, f));
  }

  lemma TailsAgree(a: seq<Txn>, b: seq<Txn>)
    requires a != [] && b != [] && a[0] == b[0]
    requires forall i, j :: 0 <= i < j < |a| ==> ListedBefore(a[i], a[j])
    requires forall t :: t in a ==> t in b
    ensures forall t :: t in a[1..] ==> t in b[1..]
  {
    forall t | t in a[1..]
      ensures t in b[1..]
    {
      var k :| 0 <= k < |a[1..]| && a[1..][k] == t;
      assert a[k + 1] == t;
      ListedBeforeOrder(a[0], t, a[0]);
      assert t in b;
      var m :| 0 <= m < |b| && b[m] == t;
      assert m != 0;
      assert b[1..][m - 1] == t;
    }
  }

  /**
   * Two strictly newest-first lists with the same rows are the same list: the listing does not
   * depend on the order rows are stored in.
   */
  lemma {:induction false} StrictOrderDeterminesListing(a: seq<Txn>, b: seq<Txn>)
    requires forall i, j :: 0 <= i < j < |a| ==> ListedBefore(a[i], a[j])
    requires forall i, j :: 0 <= i < j < |b| ==> ListedBefore(b[i], b[j])
    requires forall t :: t in a <==> t in b
    ensures a == b
  {
    if a != [] {
      assert a[0] in a;
    }
    if b != [] {
      assert b[0] in b;
    }
    if a != [] && b != [] {
      var i :| 0 <= i < |b| && b[i] == a[0];
      var j :| 0 <= j < |a| && a[j] == b[0];
      ListedBeforeOrder(b[0], a[0], b[0]);
      assert a[0] == b[0];
      TailsAgree(a, b);
      TailsAgree(b, a);
      StrictOrderDeterminesListing(a[1..], b[1..]);
      assert a == [a[0]] + a[1..] && b == [b[0]] + b[1..];
    }
  }

  /** The listing is the same for any two tables holding the same rows. */
  lemma ListingIgnoresStorageOrder(rows1: seq<Txn>, rows2: seq<Txn>, userId: int, f: Filters)
    requires UniqueIds(rows1) && UniqueIds(rows2)
    requires forall t :: t in rows1 <==> t in rows2
    ensures ListTransactions(rows1, userId, f) == ListTransactions(rows2, userId, f)
  {
    ListingIsStrictlyOrdered(rows1, userId, f);
    ListingIsStrictlyOrdered(rows2, userId, f);
    StrictOrderDeterminesListing(ListTransactions(rows1, userId, f), ListTransactions(rows2, userId, f));
  }

  // ---------------------------------------------------------------------------------------------
  // getFinancialSummary

  /** CASE WHEN amount > 0 THEN amount ELSE 0 END */
  function IncomePart(x: real): real { if x > 0.0 then x else 0.0 }

  /** CASE WHEN amount < 0 THEN amount ELSE 0 END */
  function ExpensePart(x: real): real { if x < 0.0 then x else 0.0 }

  function SumIncome(rows: seq<Txn>): real
  {
    if rows == [] then 0.0 else IncomePart(rows[0].amount) + SumIncome(rows[1..])
  }

  function SumExpenses(rows: seq<Txn>): real
  {
    if rows == [] then 0.0 else ExpensePart(rows[0].amount) + SumExpenses(rows[1..])
  }

  function SumAmounts(rows: seq<Txn>): real
  {
    if rows == [] then 0.0 else rows[0].amount + SumAmounts(rows[1..])
  }

  /** SQL SUM over a set of rows: NULL when there are none. */
  function SqlSum(rows: seq<Txn>, total: real): Option<real>
  {
    if rows == [] then None else Some(total)
  }

  /** `value || 0`: NULL (and 0 itself) become 0. */
  function OrZero(v: Option<real>): real
  {
    if v.Some? && v.value != 0.0 then v.value else 0.0
  }

  datatype Summary = Summary(totalIncome: real, totalExpenses: real, currentBalance: real)

  /** getFinancialSummary: the three sums over the rows the listing selects, NULL coalesced to 0. */
  function FinancialSummary(rows: seq<Txn>, userId: int, f: Filters): (s: Summary)
    ensures s.totalIncome == SumIncome(Selected(rows, userId, f))
    ensures s.totalExpenses == SumExpenses(Selected(rows, userId, f))
    ensures s.currentBalance == SumAmounts(Selected(rows, userId, f))
  {
    var m := Selected(rows, userId, f);
    Summary(OrZero(SqlSum(m, SumIncome(m))), OrZero(SqlSum(m, SumExpenses(m))), OrZero(SqlSum(m, SumAmounts(m))))
  }

  lemma {:induction false} SumsSplit(rows: seq<Txn>)
    ensures SumIncome(rows) >= 0.0 && SumExpenses(rows) <= 0.0
    ensures SumAmounts(rows) == SumIncome(rows) + SumExpenses(rows)
  {
    if rows != [] {
      SumsSplit(rows[1..]);
    }
  }

  /** Income is never negative, expenses never positive, and the balance is their sum. */
  lemma SummaryInvariants(rows: seq<Txn>, userId: int, f: Filters)
    ensures FinancialSummary(rows, userId, f).totalIncome >= 0.0
    ensures FinancialSummary(rows, userId, f).totalExpenses <= 0.0
    ensures FinancialSummary(rows, userId, f).currentBalance
            == FinancialSummary(rows, userId, f).totalIncome + FinancialSummary(rows, userId, f).totalExpenses
  {
    SumsSplit(Selected(rows, userId, f));
  }

  /** With no matching row the summary is exactly zeros, never NULL. */
  lemma EmptySelectionSummary(rows: seq<Txn>, userId: int, f: Filters)
    requires forall t :: t in rows ==> !Matches(t, userId, f)
    ensures FinancialSummary(rows, userId, f) == Summary(0.0, 0.0, 0.0)
  {
    Seqs.FilterKeepsNone(rows, Matching(userId, f));
  }

  lemma {:induction false} InsertKeepsSums(s: seq<Txn>, x: Txn)
    requires NewestFirst(s)
    ensures SumAmounts(InsertNewestFirst(s, x)) == SumAmounts(s) + x.amount
    ensures SumIncome(InsertNewestFirst(s, x)) == SumIncome(s) + IncomePart(x.amount)
    ensures SumExpenses(InsertNewestFirst(s, x)) == SumExpenses(s) + ExpensePart(x.amount)
  {
    if s != [] && ListedBefore(s[0], x) {
      InsertKeepsSums(s[1..], x);
      assert InsertNewestFirst(s, x)[1..] == InsertNewestFirst(s[1..], x);
    }
  }

  lemma {:induction false} SortKeepsSums(s: seq<Txn>)
    ensures SumAmounts(SortNewestFirst(s)) == SumAmounts(s)
    ensures SumIncome(SortNewestFirst(s)) == SumIncome(s)
    ensures SumExpenses(SortNewestFirst(s)) == SumExpenses(s)
  {
    if s != [] {
      SortKeepsSums(s[1..]);
      InsertKeepsSums(SortNewestFirst(s[1..]), s[0]);
    }
  }

  /** The summary adds up exactly the rows the listing shows for the same filters. */
  lemma SummaryAgreesWithListing(rows: seq<Txn>, userId: int, f: Filters)
    ensures FinancialSummary(rows, userId, f).totalIncome == SumIncome(ListTransactions(rows, userId, f))
    ensures FinancialSummary(rows, userId, f).totalExpenses == SumExpenses(ListTransactions(rows, userId, f))
    ensures FinancialSummary(rows, userId, f).currentBalance == SumAmounts(ListTransactions(rows, userId, f))
  {
    SortKeepsSums(Selected(rows, userId, f));
  }

  // ---------------------------------------------------------------------------------------------
  // getCategorySummary: GROUP BY category ORDER BY category ASC, date bounds only

  /** The WHERE clause of getCategorySummary: owner and dates, never the category. */
  predicate InScope(t: Txn, userId: int, r: DateRange)
  {
    t.userId == userId && InDateRange(t, r)
  }

  function InRangeOf(userId: int, r: DateRange): Txn -> bool
  {
    (t: Txn) => InScope(t, userId, r)
  }

  /** The rows getCategorySummary groups, in table order. */
  function InRange(rows: seq<Txn>, userId: int, r: DateRange): (m: seq<Txn>)
    ensures forall t :: t in m <==> t in rows && InScope(t, userId, r)
  {
    Seqs.Filter(rows, InRangeOf(userId, r))
  }

  /** SUM(amount) over one category's rows. */
  function SumOfCategory(rows: seq<Txn>, c: string): real
  {
    if rows == [] then 0.0
    else (if rows[0].category == c then rows[0].amount else 0.0) + SumOfCategory(rows[1..], c)
  }

  predicate StrictlyAscending(cats: seq<string>)
  {
    forall i, j :: 0 <= i < j < |cats| ==> LexLess(cats[i], cats[j])
  }

  function InsertCategory(cats: seq<string>, c: string): (r: seq<string>)
    requires StrictlyAscending(cats)
    ensures StrictlyAscending(r)
    ensures forall x :: x in r <==> x == c || x in cats
  {
    if cats == [] then [c]
    else if cats[0] == c then cats
    else if LexLess(cats[0], c) then
      var rest := InsertCategory(cats[1..], c);
      forall j | 0 <= j < |rest|
        ensures LexLess(cats[0], rest[j])
      {
        if rest[j] != c {
          assert rest[j] in cats[1..];
        }
      }
      [cats[0]] + rest
    else
      LexLessTrichotomy(cats[0], c);
      forall j | 0 <= j < |cats|
        ensures LexLess(c, cats[j])
      {
        if j > 0 {
          LexLessTransitive(c, cats[0], cats[j]);
        }
      }
      [c] + cats
  }

  /** The distinct categories of the rows, ascending. */
  function CategoriesOf(rows: seq<Txn>): (r: seq<string>)
    ensures StrictlyAscending(r)
    ensures forall t :: t in rows ==> t.category in r
    ensures forall c :: c in r ==> exists t :: t in rows && t.category == c
  {
    if rows == [] then []
    else
      var rest := CategoriesOf(rows[1..]);
      assert forall t :: t in rows <==> t == rows[0] || t in rows[1..];
      InsertCategory(rest, rows[0].category)
  }

  datatype CategoryTotal = CategoryTotal(category: string, totalAmount: real)

  /** One total per category, in the order given. */
  function Totals(rows: seq<Txn>, cats: seq<string>): (out: seq<CategoryTotal>)
    ensures |out| == |cats|
    ensures forall i :: 0 <= i < |cats| ==> out[i] == CategoryTotal(cats[i], SumOfCategory(rows, cats[i]))
  {
    if cats == [] then [] else [CategoryTotal(cats[0], SumOfCategory(rows, cats[0]))] + Totals(rows, cats[1..])
  }

  /** Some in-scope row of the owner has category c. */
  predicate HasRowIn(rows: seq<Txn>, userId: int, r: DateRange, c: string)
  {
    exists t :: t in rows && InScope(t, userId, r) && t.category == c
  }

  /** Some entry of the summary is for category c. */
  predicate HasEntry(out: seq<CategoryTotal>, c: string)
  {
    exists i :: 0 <= i < |out| && out[i].category == c
  }

  /**
   * getCategorySummary: one entry per category among the owner's rows in the date range, with the
   * signed sum of its amounts, ascending by category; categories without rows do not appear.
   */
  function CategorySummary(rows: seq<Txn>, userId: int, r: DateRange): (out: seq<CategoryTotal>)
    ensures forall i, j :: 0 <= i < j < |out| ==> LexLess(out[i].category, out[j].category)
    ensures forall i :: 0 <= i < |out| ==> HasRowIn(rows, userId, r, out[i].category)
    ensures forall t :: t in rows && InScope(t, userId, r) ==> HasEntry(out, t.category)
    ensures forall i :: 0 <= i < |out| ==> out[i].totalAmount == SumOfCategory(InRange(rows, userId, r), out[i].category)
  {
    var m := InRange(rows, userId, r);
    var cats := CategoriesOf(m);
    var out := Totals(m, cats);
    EntriesMatchRows(rows, m, cats, out, userId, r);
    out
  }

  lemma EntriesMatchRows(rows: seq<Txn>, m: seq<Txn>, cats: seq<string>, out: seq<CategoryTotal>, userId: int, r: DateRange)
    requires forall t :: t in m <==> t in rows && InScope(t, userId, r)
    requires forall t :: t in m ==> t.category in cats
    requires forall c :: c in cats ==> exists t :: t in m && t.category == c
    requires |out| == |cats| && forall i :: 0 <= i < |cats| ==> out[i].category == cats[i]
    ensures forall i :: 0 <= i < |out| ==> HasRowIn(rows, userId, r, out[i].category)
    ensures forall t :: t in rows && InScope(t, userId, r) ==> HasEntry(out, t.category)
  {
    forall i | 0 <= i < |out|
      ensures HasRowIn(rows, userId, r, out[i].category)
    {
      assert cats[i] in cats;
      var t :| t in m && t.category == cats[i];
    }
    forall t | t in rows && InScope(t, userId, r)
      ensures HasEntry(out, t.category)
    {
      assert t in m;
      var i :| 0 <= i < |cats| && cats[i] == t.category;
      assert out[i].category == t.category;
    }
  }

  // ---------------------------------------------------------------------------------------------
  // Writes: createTransaction, updateTransaction, deleteTransaction

  /**
   * Why a statement fails in the store: a column the table does not have, a value a column cannot
   * take, or an id another row already has.
   */
  datatype StoreError = UnknownColumn | BadValue | DuplicateKey

  /**
   * The columns an UPDATE may name: the five the INSERT writes, and `id`, which the WHERE and
   * ORDER BY clauses name.
   */
  const WritableColumns: set<string> := {"id", "amount", "description", "transaction_date", "category", "user_id"}

  /** What the amount column accepts: a number, a boolean (sent as 1 or 0) or numeral text. */
  function AmountValue(v: JsonValue): Option<real>
  {
    match v
    case JNum(n) => Some(n)
    case JBool(b) => Some(if b then 1.0 else 0.0)
    case JStr(s) => if IsNumericText(s) then Some(NumericValue(s)) else None
    case JNull => None
  }

  /**
   * Apart from null and the empty string, which `Number` reads as 0 but the NOT NULL DECIMAL
   * column refuses, the amount column stores exactly the number `Number(v)` gives.
   */
  lemma AmountAgreesWithNumber(v: JsonValue)
    ensures v != JNull && v != JStr("") ==> AmountValue(v) == ToNumber(Some(v))
    ensures v == JNull || v == JStr("") ==> AmountValue(v).None? && ToNumber(Some(v)) == Some(0.0)
  {
  }

  /** What a text or date column accepts. */
  function TextValue(v: JsonValue): Option<string>
  {
    if v.JStr? then Some(v.s) else None
  }

  /** What the id and user_id columns accept: a whole number. */
  function WholeNumber(v: JsonValue): Option<int>
  {
    if v.JNum? && v.n.Floor as real == v.n then Some(v.n.Floor) else None
  }

  /** Every key of the patch names a column of the table. */
  predicate KnownColumns(patch: Object)
  {
    forall k :: k in patch ==> k in WritableColumns
  }

  /** Every value of the patch can be stored in the column its key names. */
  predicate StorableValues(patch: Object)
  {
    && ("amount" in patch ==> AmountValue(patch["amount"]).Some?)
    && ("id" in patch ==> WholeNumber(patch["id"]).Some?)
    && ("user_id" in patch ==> WholeNumber(patch["user_id"]).Some?)
    && ("description" in patch ==> TextValue(patch["description"]).Some?)
    && ("transaction_date" in patch ==> TextValue(patch["transaction_date"]).Some?)
    && ("category" in patch ==> TextValue(patch["category"]).Some?)
  }

  predicate Owns(rows: seq<Txn>, id: int, userId: int)
  {
    exists t :: t in rows && t.id == id && t.userId == userId
  }

  /** The row with the patch's columns overwritten and every other column kept. */
  function PatchRow(t: Txn, patch: Object): Txn
    requires StorableValues(patch)
  {
    Txn(if "id" in patch then WholeNumber(patch["id"]).value else t.id,
        if "user_id" in patch then WholeNumber(patch["user_id"]).value else t.userId,
        if "amount" in patch then AmountValue(patch["amount"]).value else t.amount,
        if "description" in patch then TextValue(patch["description"]).value else t.description,
        if "transaction_date" in patch then TextValue(patch["transaction_date"]).value else t.transactionDate,
        if "category" in patch then TextValue(patch["category"]).value else t.category)
  }

  /** Some row other than the one being updated already has the id newId. */
  predicate IdTaken(rows: seq<Txn>, id: int, newId: int)
  {
    newId != id && exists t :: t in rows && t.id == newId
  }

  /**
   * updateTransaction's answer: false for an empty patch (before any SQL), a failed statement for an
   * unknown column, false when no row has both the id and the owner, a failed statement for a value
   * the column cannot take or for a new id another row has, and true otherwise.
   */
  function UpdateResult(rows: seq<Txn>, id: int, userId: int, patch: Object): (r: Result<bool, StoreError>)
    ensures r == Err(UnknownColumn) <==> |patch| > 0 && !KnownColumns(patch)
    ensures r == Ok(false) <==> |patch| == 0 || (KnownColumns(patch) && !Owns(rows, id, userId))
    ensures r == Err(BadValue) <==> |patch| > 0 && KnownColumns(patch) && Owns(rows, id, userId) && !StorableValues(patch)
    ensures r == Ok(true) <==>
              && |patch| > 0 && KnownColumns(patch) && Owns(rows, id, userId) && StorableValues(patch)
              && !("id" in patch && IdTaken(rows, id, WholeNumber(patch["id"]).value))
  {
    if |patch| == 0 then Ok(false)
    else if !KnownColumns(patch) then Err(UnknownColumn)
    else if !Owns(rows, id, userId) then Ok(false)
    else if !StorableValues(patch) then Err(BadValue)
    else if "id" in patch && IdTaken(rows, id, WholeNumber(patch["id"]).value) then Err(DuplicateKey)
    else Ok(true)
  }

  /** The table after updateTransaction. */
  function UpdatedRows(rows: seq<Txn>, id: int, userId: int, patch: Object): (r: seq<Txn>)
    ensures |r| == |rows|
    ensures forall i :: 0 <= i < |rows| && r[i] != rows[i] ==> rows[i].id == id && rows[i].userId == userId
    ensures "id" !in patch ==> forall i :: 0 <= i < |rows| ==> r[i].id == rows[i].id
  {
    if UpdateResult(rows, id, userId, patch) == Ok(true) then
      seq(|rows|, i requires 0 <= i < |rows| =>
        if rows[i].id == id && rows[i].userId == userId then PatchRow(rows[i], patch) else rows[i])
    else rows
  }

  /** An empty patch answers false and changes nothing. */
  lemma EmptyPatchIsRejected(rows: seq<Txn>, id: int, userId: int, patch: Object)
    requires |patch| == 0
    ensures UpdateResult(rows, id, userId, patch) == Ok(false)
    ensures UpdatedRows(rows, id, userId, patch) == rows
  {
  }

  /**
   * A patch of known, storable columns, whose new id (if any) no other row has, answers true exactly
   * when the caller owns a row with that id; that row gets the supplied columns and keeps the others;
   * every other row, including any of another owner's rows, is unchanged.
   */
  lemma UpdateChangesOnlyTheOwnedRow(rows: seq<Txn>, id: int, userId: int, patch: Object)
    requires |patch| > 0 && KnownColumns(patch) && StorableValues(patch)
    requires "id" in patch ==> !IdTaken(rows, id, WholeNumber(patch["id"]).value)
    ensures UpdateResult(rows, id, userId, patch) == Ok(Owns(rows, id, userId))
    ensures forall i :: 0 <= i < |rows| && !(rows[i].id == id && rows[i].userId == userId) ==>
              UpdatedRows(rows, id, userId, patch)[i] == rows[i]
    ensures forall i :: 0 <= i < |rows| && rows[i].id == id && rows[i].userId == userId ==>
              var u := UpdatedRows(rows, id, userId, patch)[i];
              && u.id == (if "id" in patch then WholeNumber(patch["id"]).value else id)
              && u.amount == (if "amount" in patch then AmountValue(patch["amount"]).value else rows[i].amount)
              && u.description == (if "description" in patch then patch["description"].s else rows[i].description)
              && u.transactionDate == (if "transaction_date" in patch then patch["transaction_date"].s else rows[i].transactionDate)
              && u.category == (if "category" in patch then patch["category"].s else rows[i].category)
              && u.userId == (if "user_id" in patch then WholeNumber(patch["user_id"]).value else userId)
  {
    if Owns(rows, id, userId) {
      assert UpdateResult(rows, id, userId, patch) == Ok(true);
    }
  }

  /**
   * An owned row cannot take an id another row has: the statement fails and nothing changes, as
   * with any other store error.
   */
  lemma DuplicateIdFailsTheStatement(rows: seq<Txn>, id: int, userId: int, patch: Object)
    requires KnownColumns(patch) && StorableValues(patch) && Owns(rows, id, userId)
    requires "id" in patch && IdTaken(rows, id, WholeNumber(patch["id"]).value)
    ensures UpdateResult(rows, id, userId, patch) == Err(DuplicateKey)
    ensures UpdatedRows(rows, id, userId, patch) == rows
  {
  }

  /**
   * An owner may renumber a row: with an id no other row has, the row moves to the new id, leaving
   * no row under the old one.
   */
  lemma PatchCanRenumberRow(rows: seq<Txn>, id: int, userId: int, newId: int)
    requires Owns(rows, id, userId) && newId != id && UniqueIds(rows)
    requires forall t :: t in rows ==> t.id != newId
    ensures var after := UpdatedRows(rows, id, userId, map["id" := JNum(newId as real)]);
            && UpdateResult(rows, id, userId, map["id" := JNum(newId as real)]) == Ok(true)
            && (exists t :: t in after && t.id == newId && t.userId == userId)
            && forall t :: t in after ==> t.id != id
  {
    var patch := map["id" := JNum(newId as real)];
    assert (newId as real).Floor == newId;
    var t :| t in rows && t.id == id && t.userId == userId;
    var i :| 0 <= i < |rows| && rows[i] == t;
    UpdateChangesOnlyTheOwnedRow(rows, id, userId, patch);
    var after := UpdatedRows(rows, id, userId, patch);
    assert after[i] in after;
    forall u | u in after
      ensures u.id != id
    {
      var j :| 0 <= j < |after| && after[j] == u;
      if j != i {
        assert rows[j].id != id;
      }
    }
  }

  /** The ids after a successful update stay unique when they were. */
  lemma UpdateKeepsUniqueIds(rows: seq<Txn>, id: int, userId: int, patch: Object)
    requires UniqueIds(rows) && UpdateResult(rows, id, userId, patch) == Ok(true)
    ensures UniqueIds(UpdatedRows(rows, id, userId, patch))
  {
    var after := UpdatedRows(rows, id, userId, patch);
    forall i, j | 0 <= i < j < |after|
      ensures after[i].id != after[j].id
    {
      if "id" in patch {
        var newId := WholeNumber(patch["id"]).value;
        if rows[i].id == id && rows[i].userId == userId {
          assert after[i].id == newId && rows[j].id != id && after[j] == rows[j];
          assert rows[j] in rows;
        } else if rows[j].id == id && rows[j].userId == userId {
          assert after[j].id == newId && rows[i].id != id && after[i] == rows[i];
          assert rows[i] in rows;
        }
      }
    }
  }

  /**
   * The AUTO_INCREMENT counter after updateTransaction: a new id at or above it moves it past that
   * id; otherwise it stays.
   */
  function NextIdAfterUpdate(rows: seq<Txn>, id: int, userId: int, patch: Object, nextId: int): (n: int)
    ensures n >= nextId
    ensures UpdateResult(rows, id, userId, patch) == Ok(true) && "id" in patch ==> n > WholeNumber(patch["id"]).value
    ensures !(UpdateResult(rows, id, userId, patch) == Ok(true) && "id" in patch) ==> n == nextId
  {
    if UpdateResult(rows, id, userId, patch) == Ok(true) && "id" in patch then
      var newId := WholeNumber(patch["id"]).value;
      if newId >= nextId then newId + 1 else nextId
    else nextId
  }

  /** A body key that is not a column name, such as `transactionDate`, makes the UPDATE fail. */
  lemma UnknownKeyFailsTheStatement(rows: seq<Txn>, id: int, userId: int, patch: Object, key: string)
    requires key in patch && key !in WritableColumns
    ensures UpdateResult(rows, id, userId, patch) == Err(UnknownColumn)
    ensures UpdatedRows(rows, id, userId, patch) == rows
  {
  }

  /**
   * The patch keys are column names taken verbatim, and user_id is one of them: an owner can hand
   * a row to another user id, after which it leaves the owner's listing.
   */
  lemma PatchCanReassignOwner(rows: seq<Txn>, id: int, userId: int, other: int)
    requires Owns(rows, id, userId) && other != userId && UniqueIds(rows)
    ensures var after := UpdatedRows(rows, id, userId, map["user_id" := JNum(other as real)]);
            && (exists t :: t in after && t.id == id && t.userId == other)
            && forall t :: t in ListTransactions(after, userId, Filters(None, None, None)) ==> t.id != id
  {
    var patch := map["user_id" := JNum(other as real)];
    assert (other as real).Floor == other;
    var t :| t in rows && t.id == id && t.userId == userId;
    var i :| 0 <= i < |rows| && rows[i] == t;
    UpdateChangesOnlyTheOwnedRow(rows, id, userId, patch);
    var after := UpdatedRows(rows, id, userId, patch);
    assert after[i] in after;
    forall u | u in after && u.id == id
      ensures u.userId != userId
    {
      var j :| 0 <= j < |after| && after[j] == u;
      assert rows[j].id == id;
      assert j == i;
    }
  }

  /** deleteTransaction's answer: whether a row had both the id and the owner. */
  function DeleteResult(rows: seq<Txn>, id: int, userId: int): (deleted: bool)
    ensures deleted <==> exists i :: 0 <= i < |rows| && rows[i].id == id && rows[i].userId == userId
  {
    Owns(rows, id, userId)
  }

  /** The table after deleteTransaction: every row but the one with both the id and the owner. */
  function NotTheRow(id: int, userId: int): Txn -> bool
  {
    (t: Txn) => !(t.id == id && t.userId == userId)
  }

  function RowsAfterDelete(rows: seq<Txn>, id: int, userId: int): (r: seq<Txn>)
    ensures forall t :: t in r <==> t in rows && !(t.id == id && t.userId == userId)
    ensures Seqs.IsSubsequence(r, rows)
  {
    Seqs.Filter(rows, NotTheRow(id, userId))
  }

  /** Delete answers true iff the caller's row existed; it is gone afterwards and nothing else is. */
  lemma DeleteRemovesOnlyTheOwnedRow(rows: seq<Txn>, id: int, userId: int)
    ensures DeleteResult(rows, id, userId) <==> exists t :: t in rows && t.id == id && t.userId == userId
    ensures !Owns(RowsAfterDelete(rows, id, userId), id, userId)
    ensures forall t :: t in rows && t.userId != userId ==> t in RowsAfterDelete(rows, id, userId)
    ensures !DeleteResult(rows, id, userId) ==> RowsAfterDelete(rows, id, userId) == rows
  {
    if !DeleteResult(rows, id, userId) {
      Seqs.FilterKeepsAll(rows, NotTheRow(id, userId));
    }
  }

  /** The row createTransaction inserts under id, or None when a value does not fit its column. */
  function NewRow(id: int, userId: int, amount: JsonValue, description: JsonValue, transactionDate: JsonValue, category: JsonValue): (r: Option<Txn>)
    ensures r.Some? <==> AmountValue(amount).Some? && description.JStr? && transactionDate.JStr? && category.JStr?
    ensures r.Some? ==> r.value == Txn(id, userId, AmountValue(amount).value, description.s, transactionDate.s, category.s)
  {
    match (AmountValue(amount), TextValue(description), TextValue(transactionDate), TextValue(category))
    case (Some(a), Some(d), Some(t), Some(c)) => Some(Txn(id, userId, a, d, t, c))
    case _ => None
  }

  /** The `transactions` table: its rows and the next AUTO_INCREMENT id. */
  class TransactionTable {
    var rows: seq<Txn>
    var nextId: int

    ghost predicate Valid()
      reads this
    {
      UniqueIds(rows) && forall t :: t in rows ==> t.id < nextId
    }

    constructor ()
      ensures Valid() && rows == [] && nextId == 1
    {
      rows := [];
      nextId := 1;
    }

    /** createTransaction: INSERT with the next id; a value a column cannot take fails the INSERT. */
    method Create(userId: int, amount: JsonValue, description: JsonValue, transactionDate: JsonValue, category: JsonValue)
      returns (r: Result<int, StoreError>)
      requires Valid()
      modifies this
      ensures Valid()
      ensures match NewRow(old(nextId), userId, amount, description, transactionDate, category)
            case Some(t) => r == Ok(old(nextId)) && rows == old(rows) + [t] && nextId == old(nextId) + 1
            case None => r == Err(BadValue) && rows == old(rows) && nextId == old(nextId)
    {
      var a := AmountValue(amount);
      if a.None? || !description.JStr? || !transactionDate.JStr? || !category.JStr? {
        return Err(BadValue);
      }
      var id := nextId;
      rows := rows + [Txn(id, userId, a.value, description.s, transactionDate.s, category.s)];
      nextId := nextId + 1;
      r := Ok(id);
    }

    /** updateTransaction(transactionId, userId, updates). */
    method Update(id: int, userId: int, patch: Object) returns (r: Result<bool, StoreError>)
      requires Valid()
      modifies this
      ensures Valid() && nextId == NextIdAfterUpdate(old(rows), id, userId, patch, old(nextId))
      ensures r == UpdateResult(old(rows), id, userId, patch)
      ensures rows == UpdatedRows(old(rows), id, userId, patch)
    {
      r := UpdateResult(rows, id, userId, patch);
      var after := UpdatedRows(rows, id, userId, patch);
      var n := NextIdAfterUpdate(rows, id, userId, patch, nextId);
      if r == Ok(true) {
        UpdateKeepsUniqueIds(rows, id, userId, patch);
        forall t | t in after
          ensures t.id < n
        {
          var i :| 0 <= i < |after| && after[i] == t;
          if after[i] != rows[i] && "id" in patch {
            assert t.id == WholeNumber(patch["id"]).value;
          } else {
            assert t.id == rows[i].id && rows[i] in rows;
          }
        }
      }
      rows := after;
      nextId := n;
    }

    /** deleteTransaction(transactionId, userId). */
    method Delete(id: int, userId: int) returns (removed: bool)
      requires Valid()
      modifies this
      ensures Valid() && nextId == old(nextId)
      ensures removed == DeleteResult(old(rows), id, userId)
      ensures rows == RowsAfterDelete(old(rows), id, userId)
    {
      removed := DeleteResult(rows, id, userId);
      var after := RowsAfterDelete(rows, id, userId);
      SubsequenceKeepsUniqueIds(after, rows);
      rows := after;
    }
  }
}
