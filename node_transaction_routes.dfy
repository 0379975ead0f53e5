/**
 * The Node `/api/transactions` routes: each handler is a guard chain over the request that ends in
 * one call into the transaction model and a status with a JSON body. The caller's id is the one the
 * token middleware attached; a store error is answered with the route's 500 message.
 */
module NodeTransactionRoutes {
  import opened Wrappers
  import opened Text
  import opened Json
  import opened NodeTransactionModel
  import Seqs

  /** The `transaction` object of a 201 answer: the submitted fields as sent, the new id and the caller. */
  datatype Echo = Echo(id: int, amount: JsonValue, description: JsonValue, transactionDate: JsonValue, category: JsonValue, userId: int)

  datatype Body =
    | Message(message: string)
    | Created(message: string, transaction: Echo)
    | Listing(transactions: seq<Txn>)
    | SummaryOf(summary: Summary)
    | Categories(totals: seq<CategoryTotal>)

  datatype Response = Response(status: int, body: Body)

  const MissingFields := "Please enter all required fields"
  const AmountNotNumber := "Amount must be a number"
  const DateNotIso := "Transaction date must be in YYYY-MM-DD format"
  const Added := "Transaction added successfully"
  const CreateFailed := "Server error during transaction creation"
  const NoUpdateFields := "No update fields provided"
  const AmountNotNumberIfGiven := "Amount must be a number if provided"
  const DateNotIsoIfGiven := "Transaction date must be in YYYY-MM-DD format if provided"
  const NotFoundOrUnauthorized := "Transaction not found or unauthorized"
  const Updated := "Transaction updated successfully"
  const UpdateFailed := "Server error during transaction update"
  const Deleted := "Transaction deleted successfully"

  /** `/^\d{4}-\d{2}-\d{2}$/.test(v)`: only text can have that shape. */
  predicate DatePattern(v: Option<JsonValue>)
  {
    v.Some? && v.value.JStr? && IsDateSyntax(v.value.s)
  }

  predicate AllRequiredGiven(body: Object)
  {
    Truthy(Get(body, "amount")) && Truthy(Get(body, "description"))
    && Truthy(Get(body, "transactionDate")) && Truthy(Get(body, "category"))
  }

  // ---------------------------------------------------------------------------------------------
  // POST /api/transactions

  /** The first POST guard the body fails, in the handler's order, or None when it passes them all. */
  function PostRejection(body: Object): (r: Option<string>)
    ensures r.None? <==> AllRequiredGiven(body) && !IsNaN(Get(body, "amount")) && DatePattern(Get(body, "transactionDate"))
    ensures r == Some(MissingFields) <==> !AllRequiredGiven(body)
    ensures r == Some(AmountNotNumber) <==> AllRequiredGiven(body) && IsNaN(Get(body, "amount"))
    ensures r == Some(DateNotIso) <==>
              AllRequiredGiven(body) && !IsNaN(Get(body, "amount")) && !DatePattern(Get(body, "transactionDate"))
  {
    if !AllRequiredGiven(body) then Some(MissingFields)
    else if IsNaN(Get(body, "amount")) then Some(AmountNotNumber)
    else if !DatePattern(Get(body, "transactionDate")) then Some(DateNotIso)
    else None
  }

  /** The answer to a POST when the next AUTO_INCREMENT id is nextId. */
  function PostResponse(nextId: int, userId: int, body: Object): (r: Response)
    ensures PostRejection(body).Some? ==> r == Response(400, Message(PostRejection(body).value))
    ensures r.status == 201 <==>
              PostRejection(body).None?
              && NewRow(nextId, userId, body["amount"], body["description"], body["transactionDate"], body["category"]).Some?
    ensures r.status == 201 ==>
              r.body == Created(Added, Echo(nextId, body["amount"], body["description"], body["transactionDate"], body["category"], userId))
    ensures PostRejection(body).None? && r.status != 201 ==> r == Response(500, Message(CreateFailed))
  {
    match PostRejection(body)
    case Some(m) => Response(400, Message(m))
    case None =>
      var amount, description, date, category := body["amount"], body["description"], body["transactionDate"], body["category"];
      if NewRow(nextId, userId, amount, description, date, category).Some? then
        Response(201, Created(Added, Echo(nextId, amount, description, date, category, userId)))
      else
        Response(500, Message(CreateFailed))
  }

  /** An amount of 0 is falsy, so it counts as a missing field. */
  lemma ZeroAmountIsMissing(body: Object)
    requires "amount" in body && (body["amount"] == JNum(0.0) || body["amount"] == JStr(""))
    ensures PostRejection(body) == Some(MissingFields)
  {
  }

  /**
   * The date guard is syntactic: any four digits, a dash, two digits, a dash and two digits pass
   * it, whatever calendar date they name (a month of 13 or a day of 45 included).
   */
  lemma DateCheckIsSyntactic(body: Object, year: string, month: string, day: string)
    requires AllRequiredGiven(body) && !IsNaN(Get(body, "amount"))
    requires |year| == 4 && |month| == 2 && |day| == 2 && AllDigits(year) && AllDigits(month) && AllDigits(day)
    requires Get(body, "transactionDate") == Some(JStr(year + "-" + month + "-" + day))
    ensures PostRejection(body).None?
  {
    var s := year + "-" + month + "-" + day;
    assert s[..4] == year && s[5..7] == month && s[8..] == day;
  }

  /** A body of text fields and a numeric amount that passes the guards is always stored. */
  lemma ValidTextBodyIsCreated(nextId: int, userId: int, body: Object)
    requires PostRejection(body).None?
    requires body["description"].JStr? && body["category"].JStr?
    ensures PostResponse(nextId, userId, body).status == 201
  {
    AmountAgreesWithNumber(body["amount"]);
  }

  // ---------------------------------------------------------------------------------------------
  // PUT /api/transactions/:id

  /** The first PUT guard the body fails, or None. Amount and date are checked only when truthy. */
  function PutRejection(body: Object): (r: Option<string>)
    ensures r == Some(NoUpdateFields) <==> |body| == 0
    ensures r == Some(AmountNotNumberIfGiven) <==>
              |body| > 0 && Truthy(Get(body, "amount")) && IsNaN(Get(body, "amount"))
    ensures r == Some(DateNotIsoIfGiven) <==>
              |body| > 0 && !(Truthy(Get(body, "amount")) && IsNaN(Get(body, "amount")))
              && Truthy(Get(body, "transactionDate")) && !DatePattern(Get(body, "transactionDate"))
    ensures r.None? ==> |body| > 0
  {
    if |body| == 0 then Some(NoUpdateFields)
    else if Truthy(Get(body, "amount")) && IsNaN(Get(body, "amount")) then Some(AmountNotNumberIfGiven)
    else if Truthy(Get(body, "transactionDate")) && !DatePattern(Get(body, "transactionDate")) then Some(DateNotIsoIfGiven)
    else None
  }

  /** A model answer of false is 404; a failed statement is 500. */
  function UpdateOutcome(r: Result<bool, StoreError>): (res: Response)
    ensures res.status == 200 <==> r == Ok(true)
    ensures res.status == 404 <==> r == Ok(false)
    ensures res.status == 500 <==> r.Err?
  {
    match r
    case Ok(true) => Response(200, Message(Updated))
    case Ok(false) => Response(404, Message(NotFoundOrUnauthorized))
    case Err(_) => Response(500, Message(UpdateFailed))
  }

  function PutResponse(rows: seq<Txn>, id: int, userId: int, body: Object): (r: Response)
    ensures PutRejection(body).Some? ==> r == Response(400, Message(PutRejection(body).value))
    ensures PutRejection(body).None? ==> r.status in {200, 404, 500}
    ensures r.status == 200 <==> PutRejection(body).None? && UpdateResult(rows, id, userId, body) == Ok(true)
  {
    match PutRejection(body)
    case Some(m) => Response(400, Message(m))
    case None => UpdateOutcome(UpdateResult(rows, id, userId, body))
  }

  /**
   * A caller cannot tell another owner's row from a missing one: whenever the caller owns no row
   * with that id, the answer is the one an empty table gives.
   */
  lemma PutCannotSeeOtherOwners(rows: seq<Txn>, id: int, userId: int, body: Object)
    requires !Owns(rows, id, userId)
    ensures PutResponse(rows, id, userId, body) == PutResponse([], id, userId, body)
    ensures PutRejection(body).None? && KnownColumns(body) ==>
              PutResponse(rows, id, userId, body) == Response(404, Message(NotFoundOrUnauthorized))
  {
  }

  /**
   * The validated date key is the body key `transactionDate`, but that is not a column: an edit
   * sending it — as the client's edit form does — is answered 500 and changes nothing, whoever
   * owns the row.
   */
  lemma CamelCaseDateKeyFails(rows: seq<Txn>, id: int, userId: int, body: Object)
    requires "transactionDate" in body && PutRejection(body).None?
    ensures PutResponse(rows, id, userId, body) == Response(500, Message(UpdateFailed))
    ensures UpdatedRows(rows, id, userId, body) == rows
  {
    UnknownKeyFailsTheStatement(rows, id, userId, body, "transactionDate");
  }

  // ---------------------------------------------------------------------------------------------
  // DELETE /api/transactions/:id

  function DeleteResponse(rows: seq<Txn>, id: int, userId: int): (r: Response)
    ensures r.status == 200 <==> Owns(rows, id, userId)
    ensures r.status != 200 ==> r == Response(404, Message(NotFoundOrUnauthorized))
  {
    if DeleteResult(rows, id, userId) then Response(200, Message(Deleted))
    else Response(404, Message(NotFoundOrUnauthorized))
  }

  /** PUT and DELETE report a row the caller does not own with the same 404 answer. */
  lemma NotFoundAnswersAgree(rows: seq<Txn>, id: int, userId: int, body: Object)
    requires !Owns(rows, id, userId) && PutRejection(body).None? && KnownColumns(body)
    ensures PutResponse(rows, id, userId, body) == DeleteResponse(rows, id, userId)
  {
  }

  // ---------------------------------------------------------------------------------------------
  // The handlers, over the table

  method Post(table: TransactionTable, userId: int, body: Object) returns (res: Response)
    requires table.Valid()
    modifies table
    ensures table.Valid()
    ensures res == PostResponse(old(table.nextId), userId, body)
    ensures res.status == 201 ==> table.rows == old(table.rows) + [Txn(old(table.nextId), userId,
              AmountValue(body["amount"]).value, body["description"].s, body["transactionDate"].s, body["category"].s)]
    ensures res.status != 201 ==> table.rows == old(table.rows) && table.nextId == old(table.nextId)
  {
    var rejection := PostRejection(body);
    if rejection.Some? {
      return Response(400, Message(rejection.value));
    }
    var r := table.Create(userId, body["amount"], body["description"], body["transactionDate"], body["category"]);
    match r
    case Ok(id) =>
      res := Response(201, Created(Added, Echo(id, body["amount"], body["description"], body["transactionDate"], body["category"], userId)));
    case Err(_) =>
      res := Response(500, Message(CreateFailed));
  }

  method Put(table: TransactionTable, userId: int, id: int, body: Object) returns (res: Response)
    requires table.Valid()
    modifies table
    ensures table.Valid()
    ensures table.nextId == if PutRejection(body).Some? then old(table.nextId)
                            else NextIdAfterUpdate(old(table.rows), id, userId, body, old(table.nextId))
    ensures res == PutResponse(old(table.rows), id, userId, body)
    ensures table.rows == if PutRejection(body).Some? then old(table.rows) else UpdatedRows(old(table.rows), id, userId, body)
  {
    var rejection := PutRejection(body);
    if rejection.Some? {
      return Response(400, Message(rejection.value));
    }
    var r := table.Update(id, userId, body);
    res := UpdateOutcome(r);
  }

  method Delete(table: TransactionTable, userId: int, id: int) returns (res: Response)
    requires table.Valid()
    modifies table
    ensures table.Valid() && table.nextId == old(table.nextId)
    ensures res == DeleteResponse(old(table.rows), id, userId)
    ensures table.rows == RowsAfterDelete(old(table.rows), id, userId)
  {
    var removed := table.Delete(id, userId);
    if removed {
      res := Response(200, Message(Deleted));
    } else {
      res := Response(404, Message(NotFoundOrUnauthorized));
    }
  }

  // ---------------------------------------------------------------------------------------------
  // GET routes: query parameters forwarded to the model

  /** `req.query` as the handlers read it; an absent parameter is undefined. */
  type Query = map<string, string>

  function Param(q: Query, key: string): Option<string>
  {
    if key in q then Some(q[key]) else None
  }

  /** The list and summary routes forward all three filters. */
  function FiltersFrom(q: Query): (f: Filters)
    ensures f.category == Param(q, "category") && f.startDate == Param(q, "startDate") && f.endDate == Param(q, "endDate")
  {
    Filters(Param(q, "category"), Param(q, "startDate"), Param(q, "endDate"))
  }

  /** The category-summary route forwards the two dates only. */
  function DatesFrom(q: Query): (r: DateRange)
    ensures r.startDate == Param(q, "startDate") && r.endDate == Param(q, "endDate")
  {
    DateRange(Param(q, "startDate"), Param(q, "endDate"))
  }

  /** GET /api/transactions */
  function ListResponse(rows: seq<Txn>, userId: int, q: Query): (r: Response)
    ensures r.status == 200 && r.body.Listing?
    ensures r.body.transactions == ListTransactions(rows, userId, FiltersFrom(q))
    ensures forall t :: t in r.body.transactions <==> t in rows && Matches(t, userId, FiltersFrom(q))
    ensures forall t :: multiset(r.body.transactions)[t] == if Matches(t, userId, FiltersFrom(q)) then multiset(rows)[t] else 0
    ensures NewestFirst(r.body.transactions)
  {
    Response(200, Listing(ListTransactions(rows, userId, FiltersFrom(q))))
  }

  /** GET /api/transactions/summary */
  function SummaryResponse(rows: seq<Txn>, userId: int, q: Query): (r: Response)
    ensures r.status == 200 && r.body.SummaryOf?
    ensures r.body.summary.currentBalance == r.body.summary.totalIncome + r.body.summary.totalExpenses
  {
    SummaryInvariants(rows, userId, FiltersFrom(q));
    Response(200, SummaryOf(FinancialSummary(rows, userId, FiltersFrom(q))))
  }

  /** GET /api/transactions/category-summary */
  function CategoryResponse(rows: seq<Txn>, userId: int, q: Query): (r: Response)
    ensures r.status == 200 && r.body.Categories?
    ensures r.body.totals == CategorySummary(rows, userId, DatesFrom(q))
    ensures forall i, j :: 0 <= i < j < |r.body.totals| ==> LexLess(r.body.totals[i].category, r.body.totals[j].category)
    ensures forall t :: t in rows && InScope(t, userId, DatesFrom(q)) ==> HasEntry(r.body.totals, t.category)
    ensures forall i :: 0 <= i < |r.body.totals| ==>
              && HasRowIn(rows, userId, DatesFrom(q), r.body.totals[i].category)
              && r.body.totals[i].totalAmount == SumOfCategory(InRange(rows, userId, DatesFrom(q)), r.body.totals[i].category)
  {
    Response(200, Categories(CategorySummary(rows, userId, DatesFrom(q))))
  }

  /** The summary route adds up exactly the rows the list route returns for the same query. */
  lemma SummaryMatchesList(rows: seq<Txn>, userId: int, q: Query)
    ensures var s := SummaryResponse(rows, userId, q).body.summary;
            var l := ListResponse(rows, userId, q).body.transactions;
            s.totalIncome == SumIncome(l) && s.totalExpenses == SumExpenses(l) && s.currentBalance == SumAmounts(l)
  {
    SummaryAgreesWithListing(rows, userId, FiltersFrom(q));
  }

  /** A category parameter has no effect on the category summary. */
  lemma CategoryParamIgnored(rows: seq<Txn>, userId: int, q: Query, c: string)
    ensures CategoryResponse(rows, userId, q["category" := c]) == CategoryResponse(rows, userId, q)
    ensures CategoryResponse(rows, userId, q - {"category"}) == CategoryResponse(rows, userId, q)
  {
    assert DatesFrom(q["category" := c]) == DatesFrom(q);
    assert DatesFrom(q - {"category"}) == DatesFrom(q);
  }

  /** An empty category parameter restricts nothing: the list is the one without it. */
  lemma EmptyCategoryParamIgnored(rows: seq<Txn>, userId: int, q: Query)
    ensures ListResponse(rows, userId, q["category" := ""]) == ListResponse(rows, userId, q - {"category"})
  {
    var f1 := FiltersFrom(q["category" := ""]);
    var f2 := FiltersFrom(q - {"category"});
    Seqs.FilterAgrees(rows, Matching(userId, f1), Matching(userId, f2));
  }
}
