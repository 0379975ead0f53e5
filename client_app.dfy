/**
 * The React client of the Node server: the transaction form's guards and payload, the financial
 * summary cards, the pie-chart data, the dashboard's filter state and the queries built from it,
 * and the login state kept in local storage. Each handler is one sequential step; the server's
 * answer a submit waits for is a parameter.
 */
module ClientApp {
  import opened Wrappers
  import opened Text
  import opened Json
  import Fixed
  import Seqs
  import NodeTransactionModel
  import NodeTransactionRoutes

  // ---------------------------------------------------------------------------------------------
  // TransactionForm

  const AllFieldsRequired := "All fields are required."
  const AmountNotValid := "Amount must be a valid number."
  const DateNotValid := "Date must be in YYYY-MM-DD format."
  const SaveFailed := "Failed to save transaction."
  const NetworkError := "Network error or server unavailable."

  /** The form's four inputs. The amount is whatever the input holds: typed text, or the edited row's value. */
  datatype Form = Form(amount: JsonValue, description: string, transactionDate: string, category: string)

  predicate Filled(f: Form)
  {
    Truthy(Some(f.amount)) && f.description != "" && f.transactionDate != "" && f.category != ""
  }

  /**
   * The submit guards in order. The `amount === ''` half of the second guard can never fire: the
   * empty string is already stopped by the first.
   */
  function FormRejection(f: Form): (r: Option<string>)
    ensures r == Some(AllFieldsRequired) <==> !Filled(f)
    ensures r == Some(AmountNotValid) <==> Filled(f) && IsNaN(Some(f.amount))
    ensures r == Some(DateNotValid) <==> Filled(f) && !IsNaN(Some(f.amount)) && !IsDateSyntax(f.transactionDate)
    ensures r.None? <==> Filled(f) && !IsNaN(Some(f.amount)) && IsDateSyntax(f.transactionDate)
  {
    if !Filled(f) then Some(AllFieldsRequired)
    else if IsNaN(Some(f.amount)) || f.amount == JStr("") then Some(AmountNotValid)
    else if !IsDateSyntax(f.transactionDate) then Some(DateNotValid)
    else None
  }

  /** `{amount: parseFloat(amount), description, transactionDate, category}` as JSON.stringify sends it. */
  function Payload(f: Form): (p: Object)
    ensures p.Keys == {"amount", "description", "transactionDate", "category"}
    ensures p["amount"] == Serialized(ParseFloat(Some(f.amount)))
    ensures p["description"] == JStr(f.description) && p["transactionDate"] == JStr(f.transactionDate)
    ensures p["category"] == JStr(f.category)
  {
    map["amount" := Serialized(ParseFloat(Some(f.amount))), "description" := JStr(f.description),
        "transactionDate" := JStr(f.transactionDate), "category" := JStr(f.category)]
  }

  datatype SaveRequest = Put(id: int, body: Object) | Post(body: Object)

  /** The edited transaction's id selects a PUT to that id; a new transaction is POSTed. */
  function RequestFor(editingId: Option<int>, body: Object): (r: SaveRequest)
    ensures r.Put? <==> editingId.Some?
    ensures r.Put? ==> r.id == editingId.value
    ensures r.body == body
  {
    if editingId.Some? then Put(editingId.value, body) else Post(body)
  }

  /** The server's answer as the form reads it: `response.ok` and `data.message`, or no answer at all. */
  datatype SaveAnswer = Reply(ok: bool, message: string) | NoReply

  /** What a submit leaves behind: the request sent, whether onSave ran, and the error shown. */
  datatype Submission = Submission(request: Option<SaveRequest>, saved: bool, error: string)

  function Submit(editingId: Option<int>, f: Form, answer: SaveAnswer): (s: Submission)
    ensures s.request.None? <==> FormRejection(f).Some?
    ensures FormRejection(f).Some? ==> s == Submission(None, false, FormRejection(f).value)
    ensures s.request.Some? ==> s.request.value == RequestFor(editingId, Payload(f))
    ensures s.saved <==> FormRejection(f).None? && answer.Reply? && answer.ok
    ensures s.saved <==> s.error == ""
    ensures FormRejection(f).None? && answer.NoReply? ==> s.error == NetworkError
    ensures FormRejection(f).None? && answer.Reply? && !answer.ok ==>
              s.error == if answer.message != "" then answer.message else SaveFailed
  {
    match FormRejection(f)
    case Some(m) => Submission(None, false, m)
    case None =>
      var request := RequestFor(editingId, Payload(f));
      match answer
      case NoReply => Submission(Some(request), false, NetworkError)
      case Reply(ok, message) =>
        if ok then Submission(Some(request), true, "")
        else Submission(Some(request), false, if message != "" then message else SaveFailed)
  }

  /** The Node server's response as the form sees it: a 2xx status, and the body's message if it has one. */
  function AnswerOf(r: NodeTransactionRoutes.Response): (a: SaveAnswer)
    ensures a.Reply? && (a.ok <==> 200 <= r.status < 300)
    ensures r.body.Message? ==> a.message == r.body.message
  {
    Reply(200 <= r.status < 300,
          match r.body
          case Message(m) => m
          case Created(m, _) => m
          case _ => "")
  }

  /** `transaction_date.split('T')[0]`: the text before the first 'T'. */
  function DatePart(s: string): (d: string)
    ensures d <= s && 'T' !in d
    ensures |d| < |s| ==> s[|d|] == 'T'
  {
    if s == [] || s[0] == 'T' then [] else [s[0]] + DatePart(s[1..])
  }

  lemma {:induction false} DatePartOfPrefix(p: string, rest: string)
    requires 'T' !in p
    ensures DatePart(p + "T" + rest) == p
  {
    if p != [] {
      assert (p + "T" + rest)[1..] == p[1..] + "T" + rest;
      DatePartOfPrefix(p[1..], rest);
    }
  }

  /**
   * A row's timestamp whose date part is the stored date, as the server serialises a DATE at UTC,
   * reads back in the form as that date; other time zones can shift the day and are not modelled.
   */
  lemma DatePartOfTimestamp(date: string, rest: string)
    requires IsDateSyntax(date)
    ensures DatePart(date + "T" + rest) == date
  {
    forall i | 0 <= i < |date|
      ensures date[i] != 'T'
    {
      if i < 4 {
        assert date[..4][i] == date[i];
      } else if 5 <= i < 7 {
        assert date[5..7][i - 5] == date[i];
      } else if 8 <= i {
        assert date[8..][i - 8] == date[i];
      }
    }
    DatePartOfPrefix(date, rest);
  }

  /** The fields of a listed row the edit form is filled from. */
  datatype EditSource = EditSource(id: int, amount: JsonValue, description: string, transactionDate: string, category: string)

  class TransactionForm {
    const editingId: Option<int>
    var amount: JsonValue
    var description: string
    var transactionDate: string
    var category: string
    var error: string
    var loading: bool

    function Current(): Form
      reads this
    {
      Form(amount, description, transactionDate, category)
    }

    /** The state once the populating effect has run: the edited row's fields, or an empty form. */
    constructor (toEdit: Option<EditSource>)
      ensures toEdit.Some? ==>
                && editingId == Some(toEdit.value.id)
                && Current() == Form(toEdit.value.amount, toEdit.value.description,
                                     DatePart(toEdit.value.transactionDate), toEdit.value.category)
      ensures toEdit.None? ==> editingId == None && Current() == Form(JStr(""), "", "", "")
      ensures error == "" && !loading
    {
      if toEdit.Some? {
        editingId := Some(toEdit.value.id);
        amount := toEdit.value.amount;
        description := toEdit.value.description;
        transactionDate := DatePart(toEdit.value.transactionDate);
        category := toEdit.value.category;
      } else {
        editingId := None;
        amount := JStr("");
        description := "";
        transactionDate := "";
        category := "";
      }
      error := "";
      loading := false;
    }

    /**
     * handleSubmit. answer stands for the outcome of the request, when one is sent. The inputs keep
     * their values, and loading is off again once the handler returns.
     */
    method HandleSubmit(answer: SaveAnswer) returns (request: Option<SaveRequest>, saved: bool)
      modifies this
      ensures Current() == old(Current())
      ensures Submission(request, saved, error) == Submit(editingId, Current(), answer)
      ensures !loading
    {
      error := "";
      loading := true;
      saved := false;
      var rejection := FormRejection(Current());
      if rejection.Some? {
        error := rejection.value;
        loading := false;
        return None, false;
      }
      var body := Payload(Current());
      if editingId.Some? {
        request := Some(Put(editingId.value, body));
      } else {
        request := Some(Post(body));
      }
      match answer {
        case NoReply =>
          error := NetworkError;
        case Reply(ok, message) =>
          if !ok {
            error := if message != "" then message else SaveFailed;
          } else {
            saved := true;
          }
      }
      loading := false;
    }
  }

  /** A form that passes the guards sends a payload the server's own PUT guards accept. */
  lemma AcceptedPayloadPassesPutGuards(f: Form)
    requires FormRejection(f).None?
    ensures NodeTransactionRoutes.PutRejection(Payload(f)).None?
  {
    var p := Payload(f);
    assert "category" in p;
    assert |p| > 0 by {
      assert |p.Keys| > 0;
    }
    assert NodeTransactionRoutes.DatePattern(Get(p, "transactionDate"));
  }

  /**
   * A new transaction whose amount reads as a non-zero number passes the client's guards and the
   * server's, is stored, and the form calls onSave.
   */
  lemma AcceptedNewTransactionIsSaved(nextId: int, userId: int, f: Form)
    requires FormRejection(f).None? && (f.amount.JStr? || f.amount.JNum?)
    requires ParseFloat(Some(f.amount)) != Some(0.0)
    ensures var response := NodeTransactionRoutes.PostResponse(nextId, userId, Payload(f));
            && response.status == 201
            && Submit(None, f, AnswerOf(response)) == Submission(Some(Post(Payload(f))), true, "")
  {
    var p := Payload(f);
    ParseFloatAgreesWithNumber(Some(f.amount));
    assert p["amount"] == JNum(ParseFloat(Some(f.amount)).value);
    assert NodeTransactionRoutes.AllRequiredGiven(p);
    assert NodeTransactionRoutes.DatePattern(Get(p, "transactionDate"));
    NodeTransactionRoutes.ValidTextBodyIsCreated(nextId, userId, p);
  }

  /**
   * An edit never saves: the payload names the date `transactionDate`, which is not a column, so
   * every PUT the form sends fails as a store error, changes no row, and the form shows the
   * server's 500 message.
   */
  lemma EditIsNeverSaved(rows: seq<NodeTransactionModel.Txn>, id: int, userId: int, f: Form)
    requires FormRejection(f).None?
    ensures var response := NodeTransactionRoutes.PutResponse(rows, id, userId, Payload(f));
            && response == NodeTransactionRoutes.Response(500, NodeTransactionRoutes.Message(NodeTransactionRoutes.UpdateFailed))
            && NodeTransactionModel.UpdatedRows(rows, id, userId, Payload(f)) == rows
            && Submit(Some(id), f, AnswerOf(response))
               == Submission(Some(Put(id, Payload(f))), false, NodeTransactionRoutes.UpdateFailed)
  {
    AcceptedPayloadPassesPutGuards(f);
    NodeTransactionRoutes.CamelCaseDateKeyFails(rows, id, userId, Payload(f));
  }

  /**
   * The text "0" is truthy and is a number, so the form accepts it; parseFloat turns it into 0,
   * which the server counts as a missing field.
   */
  lemma ZeroTextIsRefusedByTheServer(nextId: int, userId: int, f: Form)
    requires f.amount == JStr("0") && f.description != "" && f.category != "" && IsDateSyntax(f.transactionDate)
    ensures FormRejection(f).None?
    ensures NodeTransactionRoutes.PostResponse(nextId, userId, Payload(f))
            == NodeTransactionRoutes.Response(400, NodeTransactionRoutes.Message(NodeTransactionRoutes.MissingFields))
  {
    assert IsNumericText("0") && NumericValue("0") == 0.0 by {
      assert Unsigned("0") == "0";
      assert DotIndex("0") == 1;
    }
  }

  // ---------------------------------------------------------------------------------------------
  // FinancialSummary

  /** `v || 0` */
  function OrZero(v: Option<JsonValue>): (r: JsonValue)
    ensures Truthy(v) ==> r == v.value
    ensures !Truthy(v) ==> r == JNum(0.0)
  {
    if Truthy(v) then v.value else JNum(0.0)
  }

  /** `parseFloat(x).toFixed(2)`; NaN is written "NaN". */
  function Formatted(n: Option<real>): string
  {
    if n.Some? then Fixed.ToFixed2(n.value) else "NaN"
  }

  /** A summary card's text: `parseFloat(summary[key] || 0).toFixed(2)`. */
  function CardText(summary: Object, key: string): (text: string)
    ensures forall x :: Get(summary, key) == Some(JNum(x)) ==> text == Fixed.ToFixed2(x)
    ensures forall t :: Get(summary, key) == Some(JStr(t)) && t != "" && IsNumericText(t) ==> text == Fixed.ToFixed2(NumericValue(t))
  {
    Formatted(ParseFloat(Some(OrZero(Get(summary, key)))))
  }

  /** The expenses card: `Math.abs(text).toFixed(2)`, the text read back through `Number`. */
  function MagnitudeText(text: string): string
  {
    Formatted(AbsOf(ToNumber(Some(JStr(text)))))
  }

  /** `Math.abs`, NaN staying NaN. */
  function AbsOf(n: Option<real>): Option<real>
  {
    if n.Some? then Some(Fixed.Abs(n.value)) else None
  }

  datatype Cards = Cards(income: string, expenses: string, balance: string, balanceIndigo: bool)

  /** The three cards, and whether the balance takes the indigo class (`text >= 0` compares as a number). */
  function SummaryCards(summary: Object): (c: Cards)
    ensures ParseFloat(Some(OrZero(Get(summary, "currentBalance")))).None? ==> c.balance == "NaN" && !c.balanceIndigo
    ensures ParseFloat(Some(OrZero(Get(summary, "totalExpenses")))).None? ==> c.expenses == "NaN"
    ensures ParseFloat(Some(OrZero(Get(summary, "totalIncome")))).None? ==> c.income == "NaN"
  {
    NaNTextIsNaN();
    var balance := CardText(summary, "currentBalance");
    var n := ToNumber(Some(JStr(balance)));
    Cards(CardText(summary, "totalIncome"), MagnitudeText(CardText(summary, "totalExpenses")), balance,
          n.Some? && n.value >= 0.0)
  }

  /** A missing, null or zero field is shown as 0.00. */
  lemma MissingFieldShowsZero(summary: Object, key: string)
    requires !Truthy(Get(summary, key))
    ensures CardText(summary, key) == "0.00"
  {
    Fixed.ZeroIsWrittenWithTwoZeros();
  }

  lemma {:induction false} NaNTextIsNaN()
    ensures ToNumber(Some(JStr("NaN"))).None?
  {
    assert Unsigned("NaN") == "NaN";
    assert DotIndex("NaN") == 3 by {
      assert "NaN"[1..] == "aN" && "aN"[1..] == "N" && "N"[1..] == "";
    }
    assert IntPart("NaN") == "NaN";
    assert !IsDigit("NaN"[0]);
  }

  lemma AbsOfNumeral(t: string, v: real)
    requires t != "" && IsNumericText(t) && Fixed.Abs(NumericValue(t)) == v
    ensures AbsOf(ToNumber(Some(JStr(t)))) == Some(v)
  {
  }

  /** A formatted amount reads back, through `Number`, as a number whose magnitude is |x| rounded to cents. */
  lemma FormattedReadsBack(x: real)
    ensures AbsOf(ToNumber(Some(JStr(Fixed.ToFixed2(x))))) == Some(Fixed.Hundredths(Fixed.Abs(x)) as real / 100.0)
  {
    Fixed.ToFixed2RoundTrip(x);
    Fixed.ToFixed2Length(x);
    AbsOfNumeral(Fixed.ToFixed2(x), Fixed.Hundredths(Fixed.Abs(x)) as real / 100.0);
  }

  lemma MagnitudeTextOf(t: string, a: real)
    requires a >= 0.0 && AbsOf(ToNumber(Some(JStr(t)))) == Some(Fixed.Hundredths(a) as real / 100.0)
    ensures MagnitudeText(t) == Fixed.Magnitude2(a)
  {
    Fixed.ToFixed2Sign(Fixed.Hundredths(a) as real / 100.0);
    Fixed.Magnitude2OfRounded(a);
  }

  /** Reading a formatted amount back and taking its magnitude gives the magnitude of the original. */
  lemma MagnitudeOfFormatted(x: real)
    ensures MagnitudeText(Fixed.ToFixed2(x)) == Fixed.Magnitude2(Fixed.Abs(x))
  {
    FormattedReadsBack(x);
    MagnitudeTextOf(Fixed.ToFixed2(x), Fixed.Abs(x));
  }

  /**
   * The expenses card shows the magnitude of the amount to two decimals ("NaN" when it does not
   * parse): the sign the server sends is dropped.
   */
  lemma ExpensesShowTheirMagnitude(summary: Object)
    ensures var n := ParseFloat(Some(OrZero(Get(summary, "totalExpenses"))));
            && (n.None? ==> SummaryCards(summary).expenses == "NaN")
            && (n.Some? ==> SummaryCards(summary).expenses == Fixed.Magnitude2(Fixed.Abs(n.value)))
  {
    var n := ParseFloat(Some(OrZero(Get(summary, "totalExpenses"))));
    if n.Some? {
      MagnitudeOfFormatted(n.value);
    } else {
      NaNTextIsNaN();
    }
  }

  /** A formatted amount reads back as not negative exactly when x is, or rounds to zero cents. */
  lemma FormattedSign(x: real)
    ensures var n := ToNumber(Some(JStr(Fixed.ToFixed2(x))));
            (n.Some? && n.value >= 0.0) <==> x >= 0.0 || Fixed.Hundredths(-x) == 0
  {
    Fixed.ToFixed2RoundTrip(x);
    assert |Fixed.ToFixed2(x)| > 0;
  }

  /** The balance is indigo exactly when it is not negative once rounded to cents ("-0.00" reads as 0). */
  lemma BalanceColour(summary: Object)
    requires ParseFloat(Some(OrZero(Get(summary, "currentBalance")))).Some?
    ensures var x := ParseFloat(Some(OrZero(Get(summary, "currentBalance")))).value;
            SummaryCards(summary).balanceIndigo <==> x >= 0.0 || Fixed.Hundredths(-x) == 0
  {
    var x := ParseFloat(Some(OrZero(Get(summary, "currentBalance")))).value;
    assert CardText(summary, "currentBalance") == Fixed.ToFixed2(x);
    FormattedSign(x);
  }

  /** The summary object the Node route answers, as JSON. */
  function SummaryObject(s: NodeTransactionModel.Summary): Object
  {
    map["totalIncome" := JNum(s.totalIncome), "totalExpenses" := JNum(s.totalExpenses),
        "currentBalance" := JNum(s.currentBalance)]
  }

  lemma OrZeroOfNumber(x: real)
    ensures ParseFloat(Some(OrZero(Some(JNum(x))))) == Some(x)
  {
  }

  /** Three numbers as the summary object: each card is that number written to two decimals. */
  lemma CardsOfNumbers(s: NodeTransactionModel.Summary)
    ensures var c := SummaryCards(SummaryObject(s));
            && c.income == Fixed.ToFixed2(s.totalIncome)
            && c.expenses == Fixed.Magnitude2(Fixed.Abs(s.totalExpenses))
            && c.balance == Fixed.ToFixed2(s.currentBalance)
  {
    var o := SummaryObject(s);
    assert Get(o, "totalIncome") == Some(JNum(s.totalIncome));
    assert Get(o, "totalExpenses") == Some(JNum(s.totalExpenses));
    assert Get(o, "currentBalance") == Some(JNum(s.currentBalance));
    OrZeroOfNumber(s.totalIncome);
    OrZeroOfNumber(s.totalExpenses);
    OrZeroOfNumber(s.currentBalance);
    ExpensesShowTheirMagnitude(o);
  }

  /** The cards show the magnitudes of income and expenses to two decimals, and the balance with its sign. */
  predicate ShowsTotals(s: NodeTransactionModel.Summary)
  {
    var c := SummaryCards(SummaryObject(s));
    && c.income == Fixed.Magnitude2(Fixed.Abs(s.totalIncome))
    && c.expenses == Fixed.Magnitude2(Fixed.Abs(s.totalExpenses))
    && c.balance == Fixed.ToFixed2(s.currentBalance)
  }

  /** With income never negative, the income card is the plain total; the expenses card drops the sign. */
  lemma CardsOfSignedTotals(s: NodeTransactionModel.Summary)
    requires s.totalIncome >= 0.0
    ensures ShowsTotals(s)
  {
    CardsOfNumbers(s);
    Fixed.ToFixed2Sign(s.totalIncome);
  }

  /**
   * On the server's summary, whatever the query: income is never negative and expenses never
   * positive, so the cards show the income, the expenses without their minus, and the balance.
   */
  lemma CardsOfServerSummary(rows: seq<NodeTransactionModel.Txn>, userId: int, q: NodeTransactionRoutes.Query)
    ensures var s := NodeTransactionRoutes.SummaryResponse(rows, userId, q).body.summary;
            s.totalIncome >= 0.0 && s.totalExpenses <= 0.0 && ShowsTotals(s)
  {
    var f := NodeTransactionRoutes.FiltersFrom(q);
    NodeTransactionModel.SummaryInvariants(rows, userId, f);
    var s := NodeTransactionModel.FinancialSummary(rows, userId, f);
    assert NodeTransactionRoutes.SummaryResponse(rows, userId, q).body.summary == s;
    CardsOfSignedTotals(s);
  }

  // ---------------------------------------------------------------------------------------------
  // CategoryPieChart

  /** A category-summary entry as received. */
  datatype CategoryRow = CategoryRow(category: string, totalAmount: JsonValue)

  datatype Slice = Slice(name: string, value: real)

  /** `Math.abs(parseFloat(totalAmount)) > 0`: false for NaN and for 0. */
  predicate Charted(row: CategoryRow)
  {
    var n := ParseFloat(Some(row.totalAmount));
    n.Some? && n.value != 0.0
  }

  function SliceOf(row: CategoryRow): Slice
    requires Charted(row)
  {
    Slice(row.category, Fixed.Abs(ParseFloat(Some(row.totalAmount)).value))
  }

  /** The slice comes from a charted entry of the data. */
  predicate FromRow(data: seq<CategoryRow>, s: Slice)
  {
    exists k :: 0 <= k < |data| && Charted(data[k]) && SliceOf(data[k]) == s
  }

  function RowNames(data: seq<CategoryRow>): (names: seq<string>)
    ensures |names| == |data| && forall i :: 0 <= i < |data| ==> names[i] == data[i].category
  {
    if data == [] then [] else [data[0].category] + RowNames(data[1..])
  }

  function SliceNames(slices: seq<Slice>): (names: seq<string>)
    ensures |names| == |slices| && forall i :: 0 <= i < |slices| ==> names[i] == slices[i].name
  {
    if slices == [] then [] else [slices[0].name] + SliceNames(slices[1..])
  }

  /** chartData: the charted entries, in order, each as its name and the absolute total. */
  function PieData(data: seq<CategoryRow>): (r: seq<Slice>)
    ensures |r| <= |data|
    ensures forall i :: 0 <= i < |r| ==> r[i].value > 0.0
  {
    if data == [] then []
    else if Charted(data[0]) then [SliceOf(data[0])] + PieData(data[1..])
    else PieData(data[1..])
  }

  /** Every slice is the slice of some charted entry. */
  lemma {:induction false} SlicesComeFromEntries(data: seq<CategoryRow>)
    ensures forall i :: 0 <= i < |PieData(data)| ==> FromRow(data, PieData(data)[i])
  {
    if data != [] {
      var rest := PieData(data[1..]);
      SlicesComeFromEntries(data[1..]);
      forall i | 0 <= i < |rest|
        ensures FromRow(data, rest[i])
      {
        assert FromRow(data[1..], rest[i]);
        var k :| 0 <= k < |data[1..]| && Charted(data[1..][k]) && SliceOf(data[1..][k]) == rest[i];
        assert data[k + 1] == data[1..][k];
      }
      if Charted(data[0]) {
        assert FromRow(data, SliceOf(data[0]));
        assert PieData(data) == [SliceOf(data[0])] + rest;
      } else {
        assert PieData(data) == rest;
      }
    }
  }

  /** Every charted entry has its slice. */
  lemma {:induction false} EveryChartedEntryHasASlice(data: seq<CategoryRow>)
    ensures forall k :: 0 <= k < |data| && Charted(data[k]) ==> SliceOf(data[k]) in PieData(data)
  {
    if data != [] {
      var rest := PieData(data[1..]);
      EveryChartedEntryHasASlice(data[1..]);
      forall k | 1 <= k < |data| && Charted(data[k])
        ensures SliceOf(data[k]) in rest
      {
        assert data[1..][k - 1] == data[k];
      }
    }
  }

  /** No chart is drawn exactly when no entry is charted: every total is 0 or not a number. */
  lemma NoChartWhenNothingIsCharted(data: seq<CategoryRow>)
    ensures PieData(data) == [] <==> forall k :: 0 <= k < |data| ==> !Charted(data[k])
  {
    SlicesComeFromEntries(data);
    EveryChartedEntryHasASlice(data);
    if PieData(data) != [] {
      assert FromRow(data, PieData(data)[0]);
    }
  }

  /** The slices keep the entries' order: their names are a subsequence of the entries' names. */
  lemma {:induction false} PieDataKeepsOrder(data: seq<CategoryRow>)
    ensures Seqs.IsSubsequence(SliceNames(PieData(data)), RowNames(data))
  {
    if data != [] {
      PieDataKeepsOrder(data[1..]);
      var rest := PieData(data[1..]);
      assert RowNames(data)[1..] == RowNames(data[1..]);
      if Charted(data[0]) {
        var r := [SliceOf(data[0])] + rest;
        assert SliceNames(r)[1..] == SliceNames(rest);
      }
    }
  }

  /** Entries listed in ascending order of name keep that order as slices. */
  lemma {:induction false} PieDataKeepsAscendingNames(data: seq<CategoryRow>)
    requires NodeTransactionModel.StrictlyAscending(RowNames(data))
    ensures NodeTransactionModel.StrictlyAscending(SliceNames(PieData(data)))
  {
    if data != [] {
      var rest := PieData(data[1..]);
      assert RowNames(data[1..]) == RowNames(data)[1..];
      PieDataKeepsAscendingNames(data[1..]);
      SlicesComeFromEntries(data[1..]);
      if Charted(data[0]) {
        var r := PieData(data);
        assert r == [SliceOf(data[0])] + rest;
        forall j | 0 <= j < |rest|
          ensures LexLess(data[0].category, rest[j].name)
        {
          assert FromRow(data[1..], rest[j]);
          var k :| 0 <= k < |data[1..]| && Charted(data[1..][k]) && SliceOf(data[1..][k]) == rest[j];
          assert RowNames(data)[k + 1] == rest[j].name;
        }
        forall i, j | 0 <= i < j < |r|
          ensures LexLess(SliceNames(r)[i], SliceNames(r)[j])
        {
          if i > 0 {
            assert r[i] == rest[i - 1] && r[j] == rest[j - 1];
            assert SliceNames(rest)[i - 1] == rest[i - 1].name;
          }
        }
      }
    }
  }

  /** The server's category totals as the chart receives them. */
  function RowsOf(totals: seq<NodeTransactionModel.CategoryTotal>): (data: seq<CategoryRow>)
    ensures |data| == |totals|
    ensures forall i :: 0 <= i < |totals| ==> data[i] == CategoryRow(totals[i].category, JNum(totals[i].totalAmount))
  {
    if totals == [] then [] else [CategoryRow(totals[0].category, JNum(totals[0].totalAmount))] + RowsOf(totals[1..])
  }

  /** Some entry of the totals has the slice's name, a non-zero total and the slice's value as its magnitude. */
  predicate HasTotalFor(totals: seq<NodeTransactionModel.CategoryTotal>, s: Slice)
  {
    exists k :: 0 <= k < |totals| && totals[k].category == s.name && totals[k].totalAmount != 0.0
                && Fixed.Abs(totals[k].totalAmount) == s.value
  }

  /** Totals ascending by category chart one slice per non-zero total, sized by its magnitude, in that order. */
  lemma PieOfTotals(totals: seq<NodeTransactionModel.CategoryTotal>)
    requires forall i, j :: 0 <= i < j < |totals| ==> LexLess(totals[i].category, totals[j].category)
    ensures var r := PieData(RowsOf(totals));
            && NodeTransactionModel.StrictlyAscending(SliceNames(r))
            && (forall i :: 0 <= i < |r| ==> HasTotalFor(totals, r[i]))
            && (forall k :: 0 <= k < |totals| && totals[k].totalAmount != 0.0 ==>
                  Slice(totals[k].category, Fixed.Abs(totals[k].totalAmount)) in r)
  {
    var data := RowsOf(totals);
    var r := PieData(data);
    assert NodeTransactionModel.StrictlyAscending(RowNames(data));
    PieDataKeepsAscendingNames(data);
    SlicesComeFromEntries(data);
    EveryChartedEntryHasASlice(data);
    forall i | 0 <= i < |r|
      ensures HasTotalFor(totals, r[i])
    {
      assert FromRow(data, r[i]);
      var k :| 0 <= k < |data| && Charted(data[k]) && SliceOf(data[k]) == r[i];
      assert totals[k].category == r[i].name;
    }
    forall k | 0 <= k < |totals| && totals[k].totalAmount != 0.0
      ensures Slice(totals[k].category, Fixed.Abs(totals[k].totalAmount)) in r
    {
      assert Charted(data[k]) && SliceOf(data[k]) == Slice(totals[k].category, Fixed.Abs(totals[k].totalAmount));
    }
  }

  /** On the server's category summary: one slice per category with a non-zero total, ascending by category. */
  lemma PieOfServerTotals(rows: seq<NodeTransactionModel.Txn>, userId: int, q: NodeTransactionRoutes.Query)
    ensures var totals := NodeTransactionRoutes.CategoryResponse(rows, userId, q).body.totals;
            var r := PieData(RowsOf(totals));
            && NodeTransactionModel.StrictlyAscending(SliceNames(r))
            && (forall i :: 0 <= i < |r| ==> HasTotalFor(totals, r[i]))
            && (forall k :: 0 <= k < |totals| && totals[k].totalAmount != 0.0 ==>
                  Slice(totals[k].category, Fixed.Abs(totals[k].totalAmount)) in r)
  {
    PieOfTotals(NodeTransactionRoutes.CategoryResponse(rows, userId, q).body.totals);
  }

  // ---------------------------------------------------------------------------------------------
  // The dashboard's filters and the queries sent with them

  /** The category option labelled 'All' carries the empty value; every other option its label. */
  function OptionValue(caption: string): (v: string)
    ensures v == "" <==> caption == "All" || caption == ""
    ensures caption != "All" ==> v == caption
  {
    if caption == "All" then "" else caption
  }

  const ClearedFilters: map<string, string> := map["category" := "", "startDate" := "", "endDate" := ""]

  /** The category-summary request drops the category and keeps every other filter. */
  function DateFilters(filters: map<string, string>): (q: NodeTransactionRoutes.Query)
    ensures "category" !in q
    ensures forall k :: k != "category" ==> (k in q <==> k in filters)
    ensures forall k :: k in q ==> q[k] == filters[k]
  {
    filters - {"category"}
  }

  class DashboardFilters {
    var filters: map<string, string>

    constructor ()
      ensures filters == ClearedFilters
    {
      filters := ClearedFilters;
    }

    /** handleFilterChange: the named filter takes the value; the others keep theirs. */
    method HandleFilterChange(name: string, value: string)
      modifies this
      ensures filters == old(filters)[name := value]
      ensures forall k :: k in old(filters) && k != name ==> k in filters && filters[k] == old(filters)[k]
    {
      filters := filters[name := value];
    }

    method HandleClearFilters()
      modifies this
      ensures filters == ClearedFilters
    {
      filters := ClearedFilters;
    }
  }

  /**
   * The chart's query leaves the category out, and the server's answer is the one it would give to
   * all three filters: the chart never follows the category filter.
   */
  lemma PieIgnoresTheCategoryFilter(rows: seq<NodeTransactionModel.Txn>, userId: int, filters: map<string, string>, c: string)
    ensures NodeTransactionRoutes.CategoryResponse(rows, userId, DateFilters(filters[
              "category" := c]))
            == NodeTransactionRoutes.CategoryResponse(rows, userId, filters)
  {
    assert DateFilters(filters["category" := c]) == filters - {"category"};
    NodeTransactionRoutes.CategoryParamIgnored(rows, userId, filters, c);
  }

  /** Choosing 'All' lists what a query without any category lists. */
  lemma AllOptionListsEveryCategory(rows: seq<NodeTransactionModel.Txn>, userId: int, filters: map<string, string>)
    ensures NodeTransactionRoutes.ListResponse(rows, userId, filters["category" := OptionValue("All")])
            == NodeTransactionRoutes.ListResponse(rows, userId, filters - {"category"})
  {
    NodeTransactionRoutes.EmptyCategoryParamIgnored(rows, userId, filters);
  }

  /** With the filters cleared, the list holds exactly the caller's transactions, newest first. */
  lemma ClearedFiltersListEverything(rows: seq<NodeTransactionModel.Txn>, userId: int)
    ensures var l := NodeTransactionRoutes.ListResponse(rows, userId, ClearedFilters).body.transactions;
            && (forall t :: t in l <==> t in rows && t.userId == userId)
            && NodeTransactionModel.NewestFirst(l)
  {
    var f := NodeTransactionRoutes.FiltersFrom(ClearedFilters);
    assert f == NodeTransactionModel.Filters(Some(""), Some(""), Some(""));
  }

  // ---------------------------------------------------------------------------------------------
  // App: the token and user, kept in state and in local storage

  const DashboardPage := "dashboard"
  const LoginPage := "login"

  /** `localStorage.getItem(key) || null`: a missing or empty item is null. */
  function Stored(storage: map<string, string>, key: string): (v: Option<string>)
    ensures v.Some? <==> key in storage && storage[key] != ""
    ensures v.Some? ==> v.value == storage[key]
  {
    if key in storage && storage[key] != "" then Some(storage[key]) else None
  }

  /** The page the initial check lands on: the dashboard only when both items are stored. */
  function StartPage(storage: map<string, string>): (page: string)
    ensures page == DashboardPage <==> Stored(storage, "token").Some? && Stored(storage, "user").Some?
    ensures page == DashboardPage || page == LoginPage
  {
    if Stored(storage, "token").Some? && Stored(storage, "user").Some? then DashboardPage else LoginPage
  }

  /**
   * The session state. The user is kept as its JSON text; parsing it back is not modelled.
   */
  class Session {
    var token: Option<string>
    var user: Option<string>
    var currentPage: string
    var storage: map<string, string>

    /** The state once the initial auth check has run. */
    constructor (storage: map<string, string>)
      ensures this.storage == storage
      ensures token == Stored(storage, "token") && user == Stored(storage, "user")
      ensures currentPage == StartPage(storage)
    {
      this.storage := storage;
      token := Stored(storage, "token");
      user := Stored(storage, "user");
      if Stored(storage, "token").Some? && Stored(storage, "user").Some? {
        currentPage := DashboardPage;
      } else {
        currentPage := LoginPage;
      }
    }

    method Login(newToken: string, newUser: string)
      modifies this
      ensures token == Some(newToken) && user == Some(newUser) && currentPage == DashboardPage
      ensures storage == old(storage)["token" := newToken]["user" := newUser]
    {
      token := Some(newToken);
      user := Some(newUser);
      storage := storage["token" := newToken];
      storage := storage["user" := newUser];
      currentPage := DashboardPage;
    }

    method Logout()
      modifies this
      ensures token == None && user == None && currentPage == LoginPage
      ensures storage == old(storage) - {"token", "user"}
    {
      token := None;
      user := None;
      storage := storage - {"token", "user"};
      currentPage := LoginPage;
    }
  }

  /** After a login with a non-empty token and user, a reload starts on the dashboard with them. */
  lemma LoginSurvivesReload(storage: map<string, string>, newToken: string, newUser: string)
    requires newToken != "" && newUser != ""
    ensures var s := storage["token" := newToken]["user" := newUser];
            StartPage(s) == DashboardPage && Stored(s, "token") == Some(newToken) && Stored(s, "user") == Some(newUser)
  {
  }

  /** After a logout a reload starts on the login page, with neither item left. */
  lemma LogoutSurvivesReload(storage: map<string, string>)
    ensures var s := storage - {"token", "user"};
            StartPage(s) == LoginPage && Stored(s, "token").None? && Stored(s, "user").None?
  {
  }
}
