/**
 * The TransactionList component of the Spring frontend: how an amount is rendered and coloured, and
 * the edit and delete-confirmation state it keeps.
 */
module TransactionList {
  import opened Wrappers
  import opened Text
  import opened FrontendApi
  import Fixed
  import Json

  /** formatAmount(amount, type): the magnitude to two decimals, "-$" before it for an expense, "$" otherwise. */
  function FormatAmount(amount: real, kind: string): (s: string)
    ensures |s| >= 2 && (s[0] == '-' <==> kind == Expense)
    ensures s[if kind == Expense then 1 else 0] == '$'
  {
    (if kind == Expense then "-$" else "$") + Fixed.ToFixed2(Fixed.Abs(amount))
  }

  /** getAmountClass(type) */
  function AmountClass(kind: string): (c: string)
    ensures c == "amount-expense" <==> kind == Expense
    ensures c == "amount-income" <==> kind != Expense
  {
    if kind == Expense then "amount-expense" else "amount-income"
  }

  /** Only the magnitude is rendered: a stored sign never changes the text. */
  lemma FormatIgnoresStoredSign(amount: real, kind: string)
    ensures FormatAmount(amount, kind) == FormatAmount(-amount, kind)
  {
  }

  /**
   * The text starts with "-$" exactly for an expense and with "$" otherwise, and always ends in a point
   * and two digits; the class says expense exactly when the text carries the minus.
   */
  lemma FormatShape(amount: real, kind: string)
    ensures var s := FormatAmount(amount, kind);
            && |s| >= 5
            && (s[..2] == "-$" <==> kind == Expense)
            && (kind != Expense ==> s[0] == '$')
            && s[|s| - 3] == '.' && IsDigit(s[|s| - 2]) && IsDigit(s[|s| - 1])
            && (AmountClass(kind) == "amount-expense" <==> s[..2] == "-$")
  {
    var m := Fixed.Magnitude2(Fixed.Abs(amount));
    assert Fixed.ToFixed2(Fixed.Abs(amount)) == m;
    var s := FormatAmount(amount, kind);
    if kind != Expense {
      assert s == "$" + m;
      assert s[1] == m[0];
      Fixed.Magnitude2StartsWithDigit(Fixed.Abs(amount));
    }
  }

  /** The digits after the sign and the dollar read back as the magnitude rounded to the nearest cent. */
  lemma FormatReadsBack(amount: real, kind: string)
    ensures var s := FormatAmount(amount, kind);
            var digits := if kind == Expense then s[2..] else s[1..];
            && Json.IsNumericText(digits)
            && Json.NumericValue(digits) == Fixed.Hundredths(Fixed.Abs(amount)) as real / 100.0
  {
    var m := Fixed.Magnitude2(Fixed.Abs(amount));
    var s := FormatAmount(amount, kind);
    if kind == Expense {
      assert s[2..] == m;
    } else {
      assert s[1..] == m;
    }
    Fixed.Magnitude2RoundTrip(Fixed.Abs(amount));
  }

  /**
   * The list's own state: the transaction being edited and the id awaiting delete confirmation,
   * `null` being None.
   */
  class ListState {
    var editing: Option<Transaction>
    var pendingDelete: Option<int>

    constructor ()
      ensures editing == None && pendingDelete == None && !ConfirmShown()
    {
      editing := None;
      pendingDelete := None;
    }

    /** The confirmation dialog is rendered while the pending id is truthy (so not for id 0). */
    predicate ConfirmShown(): (shown: bool)
      reads this
      ensures shown <==> pendingDelete.Some? && Json.Truthy(Some(Json.JNum(pendingDelete.value as real)))
    {
      pendingDelete.Some? && pendingDelete.value != 0
    }

    method HandleEdit(t: Transaction)
      modifies this
      ensures editing == Some(t) && pendingDelete == old(pendingDelete)
    {
      editing := Some(t);
    }

    /** handleDelete only records the id; nothing is deleted yet. */
    method HandleDelete(id: int)
      modifies this
      ensures pendingDelete == Some(id) && editing == old(editing)
      ensures ConfirmShown() <==> id != 0
    {
      pendingDelete := Some(id);
    }

    /**
     * confirmDelete: asks the API to delete the pending id. deleteFailed stands for the request's
     * outcome. On success the pending id is cleared and a refresh is requested; on failure it stays and
     * an alert is raised.
     */
    method ConfirmDelete(deleteFailed: bool) returns (request: Option<int>, refresh: bool, alert: Option<string>)
      modifies this
      ensures request == old(pendingDelete) && editing == old(editing)
      ensures !deleteFailed ==> pendingDelete == None && refresh && alert == None && !ConfirmShown()
      ensures deleteFailed ==> pendingDelete == old(pendingDelete) && !refresh && alert == Some("Failed to delete transaction")
                               && ConfirmShown() == old(ConfirmShown())
    {
      request := pendingDelete;
      if deleteFailed {
        refresh := false;
        alert := Some("Failed to delete transaction");
      } else {
        pendingDelete := None;
        refresh := true;
        alert := None;
      }
    }

    /** The Cancel button and a click on the overlay: the dialog closes and nothing is deleted. */
    method CancelDelete()
      modifies this
      ensures pendingDelete == None && editing == old(editing) && !ConfirmShown()
    {
      pendingDelete := None;
    }

    /** The edit modal's onClose. */
    method CloseEdit()
      modifies this
      ensures editing == None && pendingDelete == old(pendingDelete)
    {
      editing := None;
    }

    /** handleEditComplete: closes the modal and asks the parent to refresh. */
    method HandleEditComplete() returns (refresh: bool)
      modifies this
      ensures editing == None && pendingDelete == old(pendingDelete) && refresh
    {
      editing := None;
      refresh := true;
    }
  }
}
