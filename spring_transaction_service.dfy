/**
 * `TransactionServiceImpl`: every operation first resolves the caller's email to a user, then works on
 * the transaction repository. Update and delete look the transaction up by id and refuse, with distinct
 * errors, an unknown id and another user's transaction. A thrown RuntimeException is a `Fail` with its
 * message.
 */
module SpringTransactionService {
  import opened Wrappers
  import opened SpringRepositories

  /** TransactionRequest: the five client-supplied fields. */
  datatype TransactionRequest = TransactionRequest(description: string, amount: real, category: string, kind: TxnType, date: string)

  const UserNotFound := "User not found"
  const TransactionNotFound := "Transaction not found"
  const Unauthorized := "Unauthorized access to transaction"

  /** The entity addTransaction saves: the request's five fields, owned by the user. */
  function NewEntity(request: TransactionRequest, ownerId: int): (e: Entity)
    ensures e.description == request.description && e.amount == request.amount && e.category == request.category
    ensures e.kind == request.kind && e.date == request.date && e.ownerId == ownerId
  {
    Entity(0, request.description, request.amount, request.category, request.kind, request.date, ownerId)
  }

  /** The entity updateTransaction saves: all five fields from the request, id and owner kept. */
  function Overwritten(e: Entity, request: TransactionRequest): (u: Entity)
    ensures u.id == e.id && u.ownerId == e.ownerId
    ensures u.description == request.description && u.amount == request.amount && u.category == request.category
    ensures u.kind == request.kind && u.date == request.date
  {
    e.(description := request.description, amount := request.amount, category := request.category,
       kind := request.kind, date := request.date)
  }

  /**
   * The exception update and delete throw, in the order they check: the email, then the id, then the
   * owner; None when the caller owns the transaction.
   */
  function AccessError(users: map<string, User>, rows: seq<Entity>, id: int, email: string): (r: Option<string>)
    ensures r == Some(UserNotFound) <==> email !in users
    ensures r == Some(TransactionNotFound) <==> email in users && FindById(rows, id).None?
    ensures r == Some(Unauthorized) <==>
              email in users && FindById(rows, id).Some? && FindById(rows, id).value.ownerId != users[email].id
    ensures r.None? <==>
              email in users && FindById(rows, id).Some? && FindById(rows, id).value.ownerId == users[email].id
  {
    if email !in users then Some(UserNotFound)
    else match FindById(rows, id)
      case None => Some(TransactionNotFound)
      case Some(e) => if e.ownerId != users[email].id then Some(Unauthorized) else None
  }

  /** With distinct ids, replacing one entity changes what that id finds and nothing else. */
  lemma {:induction false} FindAfterReplace(rows: seq<Entity>, e: Entity, id: int)
    requires UniqueIds(rows)
    ensures FindById(Replaced(rows, e), id) ==
              if id == e.id && FindById(rows, id).Some? then Some(e) else FindById(rows, id)
  {
    if rows != [] {
      var r := Replaced(rows, e);
      assert r[1..] == Replaced(rows[1..], e);
      FindAfterReplace(rows[1..], e, id);
      if rows[0].id == id && id != e.id {
        assert r[0] == rows[0];
      }
    }
  }

  /** Deleting an id makes it unfindable and leaves every other id's entity where it was. */
  lemma {:induction false} FindAfterDelete(rows: seq<Entity>, gone: int, id: int)
    ensures FindById(Without(rows, gone), id) == if id == gone then None else FindById(rows, id)
  {
    if rows != [] {
      FindAfterDelete(rows[1..], gone, id);
      assert Without(rows, gone) == if rows[0].id != gone then [rows[0]] + Without(rows[1..], gone) else Without(rows[1..], gone);
    }
  }

  class TransactionService {
    const transactions: TransactionRepository
    const users: UserRepository

    ghost predicate Valid()
      reads this, transactions, users
    {
      transactions.Valid() && users.Valid()
    }

    constructor (transactions: TransactionRepository, users: UserRepository)
      requires transactions.Valid() && users.Valid()
      ensures Valid() && this.transactions == transactions && this.users == users
    {
      this.transactions := transactions;
      this.users := users;
    }

    /** addTransaction(request, userEmail) */
    method AddTransaction(request: TransactionRequest, userEmail: string) returns (out: Outcome<string>)
      requires Valid()
      modifies transactions
      ensures Valid()
      ensures userEmail !in users.byEmail ==>
                out == Fail(UserNotFound) && transactions.rows == old(transactions.rows) && transactions.nextId == old(transactions.nextId)
      ensures userEmail in users.byEmail ==>
                && out == Pass
                && transactions.rows == old(transactions.rows) + [NewEntity(request, users.byEmail[userEmail].id).(id := old(transactions.nextId))]
                && transactions.nextId == old(transactions.nextId) + 1
    {
      var user := users.FindByEmail(userEmail);
      if user.None? {
        return Fail(UserNotFound);
      }
      var saved := transactions.Insert(NewEntity(request, user.value.id));
      out := Pass;
    }

    /** getUserTransactions(userEmail): reads only. */
    method GetUserTransactions(userEmail: string) returns (r: Result<seq<Entity>, string>)
      requires Valid()
      ensures userEmail !in users.byEmail ==> r == Err(UserNotFound)
      ensures userEmail in users.byEmail ==> r.Ok? && forall e :: e in r.value <==> e in transactions.rows && e.ownerId == users.byEmail[userEmail].id
      ensures userEmail in users.byEmail ==> r == Ok(FindByUser(transactions.rows, users.byEmail[userEmail].id))
    {
      var user := users.FindByEmail(userEmail);
      if user.None? {
        return Err(UserNotFound);
      }
      r := Ok(FindByUser(transactions.rows, user.value.id));
    }

    /** updateTransaction(id, request, userEmail) */
    method UpdateTransaction(id: int, request: TransactionRequest, userEmail: string) returns (out: Outcome<string>)
      requires Valid()
      modifies transactions
      ensures Valid() && transactions.nextId == old(transactions.nextId)
      ensures var err := AccessError(users.byEmail, old(transactions.rows), id, userEmail);
              if err.Some? then out == Fail(err.value) && transactions.rows == old(transactions.rows)
              else out == Pass && transactions.rows == Replaced(old(transactions.rows), Overwritten(FindById(old(transactions.rows), id).value, request))
    {
      var user := users.FindByEmail(userEmail);
      if user.None? {
        return Fail(UserNotFound);
      }
      var found := FindById(transactions.rows, id);
      if found.None? {
        return Fail(TransactionNotFound);
      }
      if found.value.ownerId != user.value.id {
        return Fail(Unauthorized);
      }
      transactions.Replace(Overwritten(found.value, request));
      out := Pass;
    }

    /** deleteTransaction(id, userEmail) */
    method DeleteTransaction(id: int, userEmail: string) returns (out: Outcome<string>)
      requires Valid()
      modifies transactions
      ensures Valid() && transactions.nextId == old(transactions.nextId)
      ensures var err := AccessError(users.byEmail, old(transactions.rows), id, userEmail);
              if err.Some? then out == Fail(err.value) && transactions.rows == old(transactions.rows)
              else out == Pass && transactions.rows == Without(old(transactions.rows), id)
    {
      var user := users.FindByEmail(userEmail);
      if user.None? {
        return Fail(UserNotFound);
      }
      var found := FindById(transactions.rows, id);
      if found.None? {
        return Fail(TransactionNotFound);
      }
      if found.value.ownerId != user.value.id {
        return Fail(Unauthorized);
      }
      transactions.Delete(id);
      out := Pass;
    }
  }

  /**
   * After a permitted update the id finds the overwritten entity (request fields, same id and owner),
   * and every other id finds what it found before.
   */
  lemma UpdateReplacesOnlyThatEntity(users: map<string, User>, rows: seq<Entity>, id: int, email: string, request: TransactionRequest, other: int)
    requires UniqueIds(rows) && AccessError(users, rows, id, email).None?
    ensures var after := Replaced(rows, Overwritten(FindById(rows, id).value, request));
            && FindById(after, id) == Some(Overwritten(FindById(rows, id).value, request))
            && FindById(after, id).value.ownerId == users[email].id
            && (other != id ==> FindById(after, other) == FindById(rows, other))
  {
    var u := Overwritten(FindById(rows, id).value, request);
    FindAfterReplace(rows, u, id);
    FindAfterReplace(rows, u, other);
  }

  /** After a permitted delete the id finds nothing and every other id finds what it found before. */
  lemma DeleteRemovesOnlyThatEntity(rows: seq<Entity>, id: int, other: int)
    ensures FindById(Without(rows, id), id).None?
    ensures other != id ==> FindById(Without(rows, id), other) == FindById(rows, other)
  {
    FindAfterDelete(rows, id, id);
    FindAfterDelete(rows, id, other);
  }
}
