/** The JSON shape of a transaction as the Spring API hands it to the React frontend. */
module FrontendApi {
  /** kind is the `type` field, "INCOME" or "EXPENSE" as serialised; date is `YYYY-MM-DD` text. */
  datatype Transaction = Transaction(id: int, description: string, amount: real, category: string, kind: string, date: string)

  const Expense := "EXPENSE"
}
