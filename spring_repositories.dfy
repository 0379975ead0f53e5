/**
 * The Spring service's persistence layer: the Transaction and User entities, the derived queries of
 * `TransactionRepository` (findByUser, sumByType, sumByCategory) as functions of the table, and the two
 * JPA repositories as objects holding their tables. Amounts here are unsigned; the type says which way
 * they count.
 */
module SpringRepositories {
  import opened Wrappers
  import Seqs

  datatype TxnType = Income | Expense

  /** A row of `transactions`; ownerId is the id of the `user` it references. */
  datatype Entity = Entity(id: int, description: string, amount: real, category: string, kind: TxnType, date: string, ownerId: int)

  datatype User = User(id: int, email: string, password: string)

  predicate UniqueIds(rows: seq<Entity>)
  {
    forall i, j :: 0 <= i < j < |rows| ==> rows[i].id != rows[j].id
  }

  function OwnedBy(userId: int): Entity -> bool
  {
    (e: Entity) => e.ownerId == userId
  }

  /** findByUser: the user's transactions, in table order. */
  function FindByUser(rows: seq<Entity>, userId: int): (r: seq<Entity>)
    ensures forall e :: e in r <==> e in rows && e.ownerId == userId
    ensures Seqs.IsSubsequence(r, rows)
  {
    Seqs.Filter(rows, OwnedBy(userId))
  }

  /** Σ amount over the user's rows of one type. */
  function TypeTotal(rows: seq<Entity>, userId: int, kind: TxnType): real
  {
    if rows == [] then 0.0
    else (if rows[0].ownerId == userId && rows[0].kind == kind then rows[0].amount else 0.0) + TypeTotal(rows[1..], userId, kind)
  }

  predicate HasRowOfType(rows: seq<Entity>, userId: int, kind: TxnType)
  {
    exists e :: e in rows && e.ownerId == userId && e.kind == kind
  }

  /** sumByType: SUM over the user's rows of the type, NULL when there are none. */
  function SumByType(rows: seq<Entity>, userId: int, kind: TxnType): (r: Option<real>)
    ensures r.None? <==> !HasRowOfType(rows, userId, kind)
    ensures r.Some? ==> r.value == TypeTotal(rows, userId, kind)
  {
    if HasRowOfType(rows, userId, kind) then Some(TypeTotal(rows, userId, kind)) else None
  }

  /** Σ amount over the user's rows of one category, whatever their type. */
  function CategoryTotal(rows: seq<Entity>, userId: int, c: string): real
  {
    if rows == [] then 0.0
    else (if rows[0].ownerId == userId && rows[0].category == c then rows[0].amount else 0.0) + CategoryTotal(rows[1..], userId, c)
  }

  lemma {:induction false} CategoryTotalSplitsByType(rows: seq<Entity>, userId: int, c: string)
    ensures CategoryTotal(rows, userId, c) == TypeTotalIn(rows, userId, c, Income) + TypeTotalIn(rows, userId, c, Expense)
  {
    if rows != [] {
      CategoryTotalSplitsByType(rows[1..], userId, c);
    }
  }

  /** Σ amount over the user's rows of one category and one type. */
  function TypeTotalIn(rows: seq<Entity>, userId: int, c: string, kind: TxnType): real
  {
    if rows == [] then 0.0
    else (if rows[0].ownerId == userId && rows[0].category == c && rows[0].kind == kind then rows[0].amount else 0.0)
         + TypeTotalIn(rows[1..], userId, c, kind)
  }

  function CategoriesOf(rows: seq<Entity>): (r: seq<string>)
    ensures |r| == |rows| && forall i :: 0 <= i < |rows| ==> r[i] == rows[i].category
  {
    if rows == [] then [] else [rows[0].category] + CategoriesOf(rows[1..])
  }

  /** A `[category, SUM(amount)]` result row. */
  datatype CategorySum = CategorySum(category: string, total: real)

  function SumsFor(rows: seq<Entity>, userId: int, cats: seq<string>): (r: seq<CategorySum>)
    ensures |r| == |cats| && forall i :: 0 <= i < |cats| ==> r[i] == CategorySum(cats[i], CategoryTotal(rows, userId, cats[i]))
  {
    if cats == [] then [] else [CategorySum(cats[0], CategoryTotal(rows, userId, cats[0]))] + SumsFor(rows, userId, cats[1..])
  }

  predicate HasCategoryRow(rows: seq<Entity>, userId: int, c: string)
  {
    exists e :: e in rows && e.ownerId == userId && e.category == c
  }

  /**
   * sumByCategory: one row per distinct category of the user's transactions with the sum of their
   * amounts. GROUP BY fixes no order; the rows come in order of first appearance.
   */
  function SumByCategory(rows: seq<Entity>, userId: int): (r: seq<CategorySum>)
    ensures Seqs.NoDuplicates(CategoriesOfSums(r))
    ensures forall e :: e in rows && e.ownerId == userId ==> e.category in CategoriesOfSums(r)
    ensures forall i :: 0 <= i < |r| ==> HasCategoryRow(rows, userId, r[i].category)
    ensures forall i :: 0 <= i < |r| ==> r[i].total == CategoryTotal(rows, userId, r[i].category)
  {
    var mine := FindByUser(rows, userId);
    var names := CategoriesOf(mine);
    var cats := Seqs.Dedup(names);
    Seqs.DedupSpec(names);
    var r := SumsFor(rows, userId, cats);
    GroupsMatchRows(rows, userId, mine, names, cats, r);
    r
  }

  lemma GroupsMatchRows(rows: seq<Entity>, userId: int, mine: seq<Entity>, names: seq<string>, cats: seq<string>, r: seq<CategorySum>)
    requires forall e :: e in mine <==> e in rows && e.ownerId == userId
    requires |names| == |mine| && forall i :: 0 <= i < |mine| ==> names[i] == mine[i].category
    requires forall x :: x in cats <==> x in names
    requires |r| == |cats| && forall i :: 0 <= i < |cats| ==> r[i].category == cats[i]
    ensures CategoriesOfSums(r) == cats
    ensures forall e :: e in rows && e.ownerId == userId ==> e.category in cats
    ensures forall i :: 0 <= i < |r| ==> HasCategoryRow(rows, userId, r[i].category)
  {
    var cs := CategoriesOfSums(r);
    assert |cs| == |cats| && forall i :: 0 <= i < |cats| ==> cs[i] == cats[i];
    forall e | e in rows && e.ownerId == userId
      ensures e.category in cats
    {
      var k :| 0 <= k < |mine| && mine[k] == e;
      assert names[k] == e.category;
    }
    forall i | 0 <= i < |r|
      ensures HasCategoryRow(rows, userId, r[i].category)
    {
      assert cats[i] in cats;
      var k :| 0 <= k < |names| && names[k] == cats[i];
      assert mine[k] in mine;
    }
  }

  /** sumByCategory has no type condition: each total is the category's income plus its expenses. */
  lemma SumByCategoryMixesTypes(rows: seq<Entity>, userId: int)
    ensures var r := SumByCategory(rows, userId);
            forall i :: 0 <= i < |r| ==>
              r[i].total == TypeTotalIn(rows, userId, r[i].category, Income) + TypeTotalIn(rows, userId, r[i].category, Expense)
  {
    var r := SumByCategory(rows, userId);
    forall i | 0 <= i < |r|
      ensures r[i].total == TypeTotalIn(rows, userId, r[i].category, Income) + TypeTotalIn(rows, userId, r[i].category, Expense)
    {
      CategoryTotalSplitsByType(rows, userId, r[i].category);
    }
  }

  function CategoriesOfSums(r: seq<CategorySum>): (cats: seq<string>)
    ensures |cats| == |r| && forall i :: 0 <= i < |r| ==> cats[i] == r[i].category
  {
    if r == [] then [] else [r[0].category] + CategoriesOfSums(r[1..])
  }

  function FindById(rows: seq<Entity>, id: int): (r: Option<Entity>)
    ensures r.Some? <==> exists e :: e in rows && e.id == id
    ensures r.Some? ==> r.value in rows && r.value.id == id
  {
    if rows == [] then None
    else if rows[0].id == id then Some(rows[0])
    else FindById(rows[1..], id)
  }

  /** The table with the row of e's id replaced by e. */
  function Replaced(rows: seq<Entity>, e: Entity): (r: seq<Entity>)
    ensures |r| == |rows|
    ensures forall i :: 0 <= i < |rows| ==> r[i] == if rows[i].id == e.id then e else rows[i]
  {
    seq(|rows|, i requires 0 <= i < |rows| => if rows[i].id == e.id then e else rows[i])
  }

  function NotId(id: int): Entity -> bool
  {
    (e: Entity) => e.id != id
  }

  /** The table without the row of that id. */
  function Without(rows: seq<Entity>, id: int): (r: seq<Entity>)
    ensures forall e :: e in r <==> e in rows && e.id != id
    ensures Seqs.IsSubsequence(r, rows)
  {
    Seqs.Filter(rows, NotId(id))
  }

  lemma {:induction false} SubsequenceKeepsUniqueIds(r: seq<Entity>, s: seq<Entity>)
    requires Seqs.IsSubsequence(r, s) && UniqueIds(s)
    ensures UniqueIds(r)
  {
    if r != [] {
      if r[0] == s[0] && Seqs.IsSubsequence(r[1..], s[1..]) {
        SubsequenceKeepsUniqueIds(r[1..], s[1..]);
        Seqs.SubsequenceMembers(r[1..], s[1..]);
        forall j | 1 <= j < |r|
          ensures r[0].id != r[j].id
        {
          assert r[j] in r[1..];
          var k :| 0 <= k < |s[1..]| && s[1..][k] == r[j];
          assert s[k + 1] == r[j];
        }
      } else {
        SubsequenceKeepsUniqueIds(r, s[1..]);
      }
    }
  }

  /** TransactionRepository's table: the rows and the next IDENTITY value. */
  class TransactionRepository {
    var rows: seq<Entity>
    var nextId: int

    ghost predicate Valid()
      reads this
    {
      UniqueIds(rows) && forall e :: e in rows ==> e.id < nextId
    }

    constructor ()
      ensures Valid() && rows == [] && nextId == 1
    {
      rows := [];
      nextId := 1;
    }

    /** save of a new entity: it gets the next id and is appended. */
    method Insert(e: Entity) returns (saved: Entity)
      requires Valid()
      modifies this
      ensures Valid()
      ensures saved == e.(id := old(nextId))
      ensures rows == old(rows) + [saved] && nextId == old(nextId) + 1
    {
      saved := e.(id := nextId);
      rows := rows + [saved];
      nextId := nextId + 1;
    }

    /** save of an entity that already has an id: its row is overwritten. */
    method Replace(e: Entity)
      requires Valid()
      modifies this
      ensures Valid() && nextId == old(nextId)
      ensures rows == Replaced(old(rows), e)
    {
      var after := Replaced(rows, e);
      assert forall i :: 0 <= i < |after| ==> after[i].id == rows[i].id;
      assert forall x :: x in after ==> exists i :: 0 <= i < |rows| && x.id == rows[i].id;
      rows := after;
    }

    method Delete(id: int)
      requires Valid()
      modifies this
      ensures Valid() && nextId == old(nextId)
      ensures rows == Without(old(rows), id)
    {
      var after := Without(rows, id);
      SubsequenceKeepsUniqueIds(after, rows);
      rows := after;
    }
  }

  /** UserRepository's table, keyed by the unique email. */
  class UserRepository {
    var byEmail: map<string, User>
    var nextId: int

    ghost predicate Valid()
      reads this
    {
      forall e :: e in byEmail ==> byEmail[e].email == e && byEmail[e].id < nextId
    }

    constructor ()
      ensures Valid() && byEmail == map[] && nextId == 1
    {
      byEmail := map[];
      nextId := 1;
    }

    function FindByEmail(email: string): (r: Option<User>)
      reads this
      ensures r.Some? <==> email in byEmail
      ensures r.Some? ==> r.value == byEmail[email]
    {
      if email in byEmail then Some(byEmail[email]) else None
    }

    /** save of a new user under a fresh email. */
    method Insert(email: string, password: string) returns (saved: User)
      requires Valid() && email !in byEmail
      modifies this
      ensures Valid()
      ensures saved == User(old(nextId), email, password)
      ensures byEmail == old(byEmail)[email := saved] && nextId == old(nextId) + 1
    {
      saved := User(nextId, email, password);
      byEmail := byEmail[email := saved];
      nextId := nextId + 1;
    }
  }
}
