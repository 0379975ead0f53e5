/**
 * The EditTransactionModal component of the Spring frontend: a form initialised from the transaction,
 * edited one named field at a time, and a submit that validates before it sends the update.
 */
module EditTransactionModal {
  import opened Wrappers
  import opened Json
  import opened FrontendApi

  const FillAllFields := "Please fill in all fields"
  const AmountNotPositive := "Amount must be greater than zero"
  const UpdateFailed := "Failed to update transaction"

  /** The form state copied from the transaction: its description, amount, category, type and date. */
  function InitialForm(t: Transaction): (form: Object)
    ensures form.Keys == {"description", "amount", "category", "type", "date"}
  {
    map["description" := JStr(t.description), "amount" := JNum(t.amount), "category" := JStr(t.category),
        "type" := JStr(t.kind), "date" := JStr(t.date)]
  }

  /** Description, amount, category and date must be truthy; the type is not checked. */
  predicate AllFilled(form: Object)
  {
    Truthy(Get(form, "description")) && Truthy(Get(form, "amount")) && Truthy(Get(form, "category")) && Truthy(Get(form, "date"))
  }

  /** `parseFloat(amount) <= 0`: false for NaN, so an amount that is not a numeral passes. */
  predicate NotPositive(form: Object)
  {
    var n := ParseFloat(Get(form, "amount"));
    n.Some? && n.value <= 0.0
  }

  /** The submit guards in order: the error they set, or None when the update is sent. */
  function Validate(form: Object): (r: Option<string>)
    ensures r == Some(FillAllFields) <==> !AllFilled(form)
    ensures r == Some(AmountNotPositive) <==> AllFilled(form) && NotPositive(form)
    ensures r.None? <==> AllFilled(form) && !NotPositive(form)
  {
    if !AllFilled(form) then Some(FillAllFields)
    else if NotPositive(form) then Some(AmountNotPositive)
    else None
  }

  /** `{...formData, amount: parseFloat(formData.amount)}` */
  function Payload(form: Object): (p: Object)
    ensures p.Keys == form.Keys + {"amount"}
    ensures p["amount"] == Serialized(ParseFloat(Get(form, "amount")))
    ensures forall k :: k in form && k != "amount" ==> p[k] == form[k]
  {
    form["amount" := Serialized(ParseFloat(Get(form, "amount")))]
  }

  /** The one request a submit can make: the payload PUT to the original transaction's id. */
  datatype UpdateCall = UpdateCall(id: int, payload: Object)

  class EditModal {
    const transactionId: int
    var formData: Object
    var error: string
    var loading: bool

    constructor (t: Transaction)
      ensures transactionId == t.id && formData == InitialForm(t) && error == "" && !loading
    {
      transactionId := t.id;
      formData := InitialForm(t);
      error := "";
      loading := false;
    }

    /** handleChange: the named field takes the input's text; nothing else changes. */
    method HandleChange(name: string, value: string)
      modifies this
      ensures formData == old(formData)[name := JStr(value)]
      ensures forall k :: k in old(formData) && k != name ==> k in formData && formData[k] == old(formData)[k]
      ensures error == old(error) && loading == old(loading)
    {
      formData := formData[name := JStr(value)];
    }

    /**
     * handleSubmit. updateError stands for the request's outcome: None when it succeeds, otherwise the
     * response data (possibly empty). A failed guard sets its message and sends nothing.
     */
    method HandleSubmit(updateError: Option<string>) returns (call: Option<UpdateCall>, refresh: bool)
      modifies this
      ensures formData == old(formData)
      ensures Validate(formData).Some? ==>
                call == None && !refresh && error == Validate(formData).value && loading == old(loading)
      ensures Validate(formData).None? ==>
                && call == Some(UpdateCall(transactionId, Payload(formData)))
                && !loading
                && (updateError.None? ==> refresh && error == "")
                && (updateError.Some? ==> !refresh && error == if updateError.value != "" then updateError.value else UpdateFailed)
    {
      error := "";
      if !AllFilled(formData) {
        error := FillAllFields;
        return None, false;
      }
      if NotPositive(formData) {
        error := AmountNotPositive;
        return None, false;
      }
      loading := true;
      call := Some(UpdateCall(transactionId, Payload(formData)));
      if updateError.None? {
        refresh := true;
      } else {
        error := if updateError.value != "" then updateError.value else UpdateFailed;
        refresh := false;
      }
      loading := false;
    }
  }

  /**
   * Submitting the untouched form of a transaction with text in every field and a positive amount
   * sends that transaction's own five fields back unchanged.
   */
  lemma UntouchedFormIsSent(t: Transaction)
    requires t.description != "" && t.category != "" && t.date != "" && t.amount > 0.0
    ensures Validate(InitialForm(t)).None?
    ensures Payload(InitialForm(t)) == InitialForm(t)
  {
    assert Payload(InitialForm(t)) == InitialForm(t);
  }

  /** "0" is truthy text, so it passes the first guard and is stopped by the second. */
  lemma ZeroTextMeetsTheAmountGuard(form: Object)
    requires AllFilled(form) && Get(form, "amount") == Some(JStr("0"))
    ensures Validate(form) == Some(AmountNotPositive)
  {
    assert IsNumericText("0") && NumericValue("0") == 0.0 by {
      assert Unsigned("0") == "0";
      assert DotIndex("0") == 1;
    }
  }

  /** An amount that is no numeral gets past both guards and is sent as null. */
  lemma NonNumeralAmountIsSentAsNull(form: Object, s: string)
    requires AllFilled(form) && Get(form, "amount") == Some(JStr(s)) && !IsNumericText(s)
    ensures Validate(form).None?
    ensures Payload(form)["amount"] == JNull
  {
  }
}
