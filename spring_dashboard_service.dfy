/**
 * `DashboardServiceImpl`: the dashboard totals, computed from the two typed sums, and the category
 * breakdown, a map filled row by row from the grouped sums.
 */
module SpringDashboardService {
  import opened Wrappers
  import opened SpringRepositories

  const UserNotFound := "User not found"

  datatype DashboardSummary = DashboardSummary(totalIncome: real, totalExpense: real, balance: real)

  /** `x != null ? x : 0.0` */
  function OrZero(v: Option<real>): real
  {
    if v.Some? then v.value else 0.0
  }

  /** The summary of two possibly-null sums: null counts as 0.0, and the balance is income − expense. */
  function Summarize(income: Option<real>, expense: Option<real>): (s: DashboardSummary)
    ensures s.balance == s.totalIncome - s.totalExpense
    ensures income.Some? ==> s.totalIncome == income.value
    ensures income.None? ==> s.totalIncome == 0.0
    ensures expense.Some? ==> s.totalExpense == expense.value
    ensures expense.None? ==> s.totalExpense == 0.0
  {
    var totalIncome := OrZero(income);
    var totalExpense := OrZero(expense);
    DashboardSummary(totalIncome, totalExpense, totalIncome - totalExpense)
  }

  /** With no row of the type, the typed total is zero. */
  lemma {:induction false} TypeTotalWithoutRows(rows: seq<Entity>, userId: int, kind: TxnType)
    requires !HasRowOfType(rows, userId, kind)
    ensures TypeTotal(rows, userId, kind) == 0.0
  {
    if rows != [] {
      assert !HasRowOfType(rows[1..], userId, kind) by {
        forall e | e in rows[1..]
          ensures !(e.ownerId == userId && e.kind == kind)
        {
          assert e in rows;
        }
      }
      assert rows[0] in rows;
      TypeTotalWithoutRows(rows[1..], userId, kind);
    }
  }

  /**
   * The summary's totals are the sums of the user's INCOME and EXPENSE amounts over the whole table,
   * the null from an empty SUM reading as 0.0, and the balance is their difference.
   */
  lemma SummaryIsTypeTotals(rows: seq<Entity>, userId: int)
    ensures var s := Summarize(SumByType(rows, userId, Income), SumByType(rows, userId, Expense));
            && s.totalIncome == TypeTotal(rows, userId, Income)
            && s.totalExpense == TypeTotal(rows, userId, Expense)
            && s.balance == TypeTotal(rows, userId, Income) - TypeTotal(rows, userId, Expense)
  {
    if !HasRowOfType(rows, userId, Income) {
      TypeTotalWithoutRows(rows, userId, Income);
    }
    if !HasRowOfType(rows, userId, Expense) {
      TypeTotalWithoutRows(rows, userId, Expense);
    }
  }

  /** The map after `put(category, amount)` for each result row in turn. */
  function Breakdown(results: seq<CategorySum>): map<string, real>
  {
    if results == [] then map[]
    else
      var last := results[|results| - 1];
      Breakdown(results[..|results| - 1])[last.category := last.total]
  }

  lemma BreakdownStep(results: seq<CategorySum>, i: int)
    requires 0 <= i < |results|
    ensures Breakdown(results[..i + 1]) == Breakdown(results[..i])[results[i].category := results[i].total]
  {
    assert results[..i + 1][..i] == results[..i];
  }

  /** The map's keys are exactly the categories of the result rows. */
  lemma {:induction false} BreakdownKeys(results: seq<CategorySum>)
    ensures forall c :: c in Breakdown(results) <==> c in CategoriesOfSums(results)
  {
    if results != [] {
      var init := results[..|results| - 1];
      BreakdownKeys(init);
      var cs := CategoriesOfSums(results);
      var ci := CategoriesOfSums(init);
      assert cs == ci + [results[|results| - 1].category];
    }
  }

  /** A row no later row shares its category with is the one whose sum the map keeps: the last put wins. */
  lemma {:induction false} BreakdownLastWins(results: seq<CategorySum>, i: int)
    requires 0 <= i < |results|
    requires forall j :: i < j < |results| ==> results[j].category != results[i].category
    ensures results[i].category in Breakdown(results)
    ensures Breakdown(results)[results[i].category] == results[i].total
  {
    if i < |results| - 1 {
      var init := results[..|results| - 1];
      BreakdownLastWins(init, i);
    }
  }

  /**
   * Over sumByCategory's rows, whose categories are distinct, the breakdown maps exactly the user's
   * categories, each to the sum of that category's amounts.
   */
  lemma BreakdownIsCategoryTotals(rows: seq<Entity>, userId: int)
    ensures var m := Breakdown(SumByCategory(rows, userId));
            && (forall c :: c in m <==> HasCategoryRow(rows, userId, c))
            && (forall c :: c in m ==> m[c] == CategoryTotal(rows, userId, c))
  {
    var r := SumByCategory(rows, userId);
    var m := Breakdown(r);
    var cs := CategoriesOfSums(r);
    BreakdownKeys(r);
    forall c | c in m
      ensures HasCategoryRow(rows, userId, c) && m[c] == CategoryTotal(rows, userId, c)
    {
      var i :| 0 <= i < |cs| && cs[i] == c;
      forall j | i < j < |r|
        ensures r[j].category != r[i].category
      {
        assert cs[j] != cs[i];
      }
      BreakdownLastWins(r, i);
    }
    forall c | HasCategoryRow(rows, userId, c)
      ensures c in m
    {
      var e :| e in rows && e.ownerId == userId && e.category == c;
      assert c in cs;
    }
  }

  class DashboardService {
    const transactions: TransactionRepository
    const users: UserRepository

    ghost predicate Valid()
      reads this, transactions, users
    {
      transactions.Valid() && users.Valid()
    }

    constructor (transactions: TransactionRepository, users: UserRepository)
      requires transactions.Valid() && users.Valid()
      ensures Valid() && this.transactions == transactions && this.users == users
    {
      this.transactions := transactions;
      this.users := users;
    }

    /** getSummary(userEmail) */
    method GetSummary(userEmail: string) returns (r: Result<DashboardSummary, string>)
      requires Valid()
      ensures userEmail !in users.byEmail ==> r == Err(UserNotFound)
      ensures userEmail in users.byEmail ==>
                var id := users.byEmail[userEmail].id;
                r == Ok(Summarize(SumByType(transactions.rows, id, Income), SumByType(transactions.rows, id, Expense)))
    {
      var user := users.FindByEmail(userEmail);
      if user.None? {
        return Err(UserNotFound);
      }
      var income := SumByType(transactions.rows, user.value.id, Income);
      var expense := SumByType(transactions.rows, user.value.id, Expense);
      var totalIncome := if income.Some? then income.value else 0.0;
      var totalExpense := if expense.Some? then expense.value else 0.0;
      r := Ok(DashboardSummary(totalIncome, totalExpense, totalIncome - totalExpense));
    }

    /** getCategoryBreakdown(userEmail): one put per sumByCategory row. */
    method GetCategoryBreakdown(userEmail: string) returns (r: Result<map<string, real>, string>)
      requires Valid()
      ensures userEmail !in users.byEmail ==> r == Err(UserNotFound)
      ensures userEmail in users.byEmail ==> r == Ok(Breakdown(SumByCategory(transactions.rows, users.byEmail[userEmail].id)))
    {
      var user := users.FindByEmail(userEmail);
      if user.None? {
        return Err(UserNotFound);
      }
      var results := SumByCategory(transactions.rows, user.value.id);
      var categoryMap: map<string, real> := map[];
      var i := 0;
      while i < |results|
        invariant 0 <= i <= |results|
        invariant categoryMap == Breakdown(results[..i])
      {
        BreakdownStep(results, i);
        categoryMap := categoryMap[results[i].category := results[i].total];
        i := i + 1;
      }
      assert results[..i] == results;
      r := Ok(categoryMap);
    }
  }
}
