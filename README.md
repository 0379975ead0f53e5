# Expense tracker: a verified model of its core

The expense tracker keeps signed or typed money transactions per user and answers three queries
over them: a filtered list, a financial summary, and per-category totals. It exists in two
stacks:

- **Node/Express + MySQL backend, with a single-file React client.**
  - The transaction model runs SQL against the `transactions` table.
  - The routes guard each request body and map model answers to HTTP statuses.
  - The auth routes register users and log them in.
  - The client has a transaction form, summary cards, a pie chart, filters and a session kept in
    local storage.
- **Spring Boot backend, with a second React frontend.**
  - The backend has transaction, dashboard and user services over two repositories.
  - The frontend has a Dashboard page with in-memory filtering and a transaction list with
    edit/delete state. It also has an edit modal, a sign-up page and an SVG pie chart.

The model is written in Dafny, one module per source file:

- **Shared modules:**
  - `Wrappers` (Option, Result, Outcome)
  - `Text` (digits, lexicographic order, the `YYYY-MM-DD` shape)
  - `Json` (JavaScript values, truthiness, `Number`, `parseFloat`, `JSON.stringify` of a number)
  - `Fixed` (`toFixed(2)`)
  - `Seqs` (order-preserving filter, subsequences, first-appearance de-duplication)
- **How the source's form is kept:**
  - SQL statements are functions over the table's rows.
  - Objects whose fields change become classes with `modifies` clauses: the table, the Spring
    repositories and services, and the state of each React component.
  - The chart's sort stays an in-place sort of an array.
  - Loops are `while` loops with invariants.
- **Outside inputs become parameters:** server answers, token generation and password hashing.

What follows from the code is kept even where it looks unintended:

- **An edit from the Node client always fails.** The client sends the date under the key
  `transactionDate`. The update statement uses body keys verbatim as column names, and the column
  is `transaction_date`. So every edit the client sends fails as a store error (500) and changes
  nothing. `ClientApp.EditIsNeverSaved` proves this end to end.
- **Owner, id and not-found rules.** The update writes any body key that names a column.
  - A `user_id` key hands the row to another user (`PatchCanReassignOwner`).
  - An `id` key renumbers the row (`PatchCanRenumberRow`). An id another row has fails the
    statement (500), and a larger id moves the AUTO_INCREMENT counter past it.
  - A key that names no column, taken as exact text, fails the statement (500) before ownership
    is considered. So a non-owner learns nothing from a 404 only when the body's keys are all
    column names. Keys MySQL would still accept in another letter case, or keys carrying SQL
    text, are not modelled.
- **Date checks are syntactic.** The route guard checks only the digit pattern, so any four,
  two and two digits joined by dashes pass it, `2024-13-45` included (`DateCheckIsSyntactic`).
- **A zero amount typed as text.** The client's form accepts the text `"0"`. `parseFloat` then
  sends the number 0, which the server rejects as a missing field.

## Model

| member | source | states |
|---|---|---|
| Text.DateOrderIsChronological | server/models/Transaction.js:44-51 | for `YYYY-MM-DD` text, lexicographic order is chronological order (year, then month, then day), so string bounds compare dates |
| Text.LexLessTransitive | server/models/Transaction.js:53-54 | the text order used for dates and categories is transitive |
| Text.LexLessTrichotomy | server/models/Transaction.js:195-196 | any two texts are equal or ordered one way, never both |
| Json.ParseFloatAgreesWithNumber | server/routes/transactions.js:30-32 | where `parseFloat` gives a number, `Number` gives the same one; a truthy numeric value that `isNaN` accepts parses |
| Json.NonNumeralTextIsNaN | server/routes/transactions.js:30-32 | non-empty text that is no numeral is NaN to `isNaN` and to `parseFloat` |
| Json.Serialized | client/src/App.js:184-189 | a number is sent as itself and reads back as itself; NaN is sent as `null` |
| Fixed.Magnitude2RoundTrip | client/src/App.js:393-395 | the two-decimal text of a non-negative number is a numeral whose value is the number rounded to the nearest cent |
| Fixed.ToFixed2RoundTrip | client/src/App.js:393-395 | `toFixed(2)` read back is the value rounded to cents, with the sign of the original |
| Fixed.ToFixed2Sign | client/src/App.js:393-395 | a negative value is written as a minus followed by its magnitude's text; other values as their magnitude's text |
| Fixed.Magnitude2OfRounded | client/src/App.js:405 | formatting a value already rounded to cents gives the same text as the original value |
| Fixed.ZeroIsWrittenWithTwoZeros | client/src/App.js:393-395 | 0 is written `0.00` |
| Seqs.Filter | expense-tracker-frontend/src/pages/Dashboard.js:70 | filtering keeps exactly the elements satisfying the predicate, in order, with their multiplicities |
| Seqs.FilterThenFilter | expense-tracker-frontend/src/pages/Dashboard.js:69-79 | two filters one after the other are one filter by the conjunction |
| Seqs.DedupSpec | expense-tracker-frontend/src/pages/Dashboard.js:84 | a Set's iteration holds each element once, every element of the input, in order of first appearance |
| NodeTransactionModel.Selected | server/models/Transaction.js:33-51 | the rows kept are exactly the owner's rows matching the category, if given, and the inclusive date bounds |
| NodeTransactionModel.ListTransactions | server/models/Transaction.js:33-63 | the listing holds exactly the matching rows, newest date first, larger id first on a tie |
| NodeTransactionModel.SortNewestFirst | server/models/Transaction.js:53-54 | the sort returns a permutation of its input, newest first |
| NodeTransactionModel.ListingIsStrictlyOrdered | server/models/Transaction.js:53-54 | with unique ids, the listing is strictly ordered by (date desc, id desc) |
| NodeTransactionModel.ListingIgnoresStorageOrder | server/models/Transaction.js:53-54 | two tables with unique ids holding the same rows in any order give the same listing |
| NodeTransactionModel.FinancialSummary | server/models/Transaction.js:127-167 | income, expenses and balance are the sums of the positive amounts, the negative amounts and all amounts of the selected rows |
| NodeTransactionModel.SummaryInvariants | server/models/Transaction.js:128-135 | income is never negative, expenses never positive, and the balance is their sum |
| NodeTransactionModel.EmptySelectionSummary | server/models/Transaction.js:157-162 | with no matching row, all three fields are 0, never NULL |
| NodeTransactionModel.SummaryAgreesWithListing | server/models/Transaction.js:127-167 | the summary adds up exactly the rows the listing returns for the same filters |
| NodeTransactionModel.CategorySummary | server/models/Transaction.js:177-205 | one entry per category of the owner's in-range rows, each with the signed sum of its amounts, ascending by category; the category filter is not applied |
| NodeTransactionModel.InsertCategory | server/models/Transaction.js:195-196 | adding a category to an ascending list keeps it strictly ascending and adds exactly that category |
| NodeTransactionModel.AmountAgreesWithNumber | server/models/Transaction.js:17 | the amount column stores the number `Number(v)` gives, except that it refuses null and the empty string |
| NodeTransactionModel.UpdatedRows | server/models/Transaction.js:72-100 | an update keeps the number of rows and changes no row but the caller's row with that id; without an `id` key every row keeps its id |
| NodeTransactionModel.UpdateResult | server/models/Transaction.js:72-100 | updateTransaction's answer, each outcome exactly on its condition: false for an empty patch or a row the caller does not own, an unknown-column error, an unstorable-value error, and true for an owned row with storable values and no clashing id |
| NodeTransactionModel.EmptyPatchIsRejected | server/models/Transaction.js:85-87 | an empty patch reports false and runs no statement |
| NodeTransactionModel.UpdateChangesOnlyTheOwnedRow | server/models/Transaction.js:90-95 | a patch of storable columns with no clashing id succeeds exactly when the caller owns the row; it rewrites that row, giving it the patch's id if there is one and keeping its id otherwise, and leaves every other row alone |
| NodeTransactionModel.DuplicateIdFailsTheStatement | server/models/Transaction.js:90-99 | an `id` another row has fails the statement on an owned row, and nothing changes |
| NodeTransactionModel.PatchCanRenumberRow | server/models/Transaction.js:78-83 | an `id` key no other row has moves the caller's row to that id, and no row keeps the old id |
| NodeTransactionModel.UpdateKeepsUniqueIds | server/models/Transaction.js:90-95 | a successful update keeps all ids distinct |
| NodeTransactionModel.NextIdAfterUpdate | server/models/Transaction.js:90-95 | the AUTO_INCREMENT counter never goes down, passes the new id after a successful update that sets one, and is otherwise unchanged |
| NodeTransactionModel.UnknownKeyFailsTheStatement | server/models/Transaction.js:78-83 | a patch key that is not one of the column names, compared as exact text, fails the statement whoever owns the row, and nothing changes |
| NodeTransactionModel.PatchCanReassignOwner | server/models/Transaction.js:78-83 | a `user_id` key moves the caller's row to another owner |
| NodeTransactionModel.DeleteResult | server/models/Transaction.js:108-119 | deleteTransaction answers true exactly when some row has both the id and the caller as owner |
| NodeTransactionModel.RowsAfterDelete | server/models/Transaction.js:108-119 | a delete removes exactly the caller's rows with that id |
| NodeTransactionModel.DeleteRemovesOnlyTheOwnedRow | server/models/Transaction.js:110-114 | the delete reports true exactly when the caller owns such a row; afterwards the caller owns none, other users' rows all stay, and a false answer changes nothing |
| NodeTransactionModel.NewRow | server/models/Transaction.js:14-25 | an insert succeeds exactly when every value suits its column (a numeric amount, text elsewhere), and the row carries the given id, owner and values |
| NodeTransactionModel.TransactionTable.Create | server/models/Transaction.js:14-25 | a successful insert appends the new row with the next auto-increment id; a failed one changes nothing |
| NodeTransactionModel.TransactionTable.Update | server/models/Transaction.js:72-100 | the table becomes UpdatedRows of the old table, the answer is UpdateResult, ids stay unique and below the counter, and the counter becomes NextIdAfterUpdate |
| NodeTransactionModel.TransactionTable.Delete | server/models/Transaction.js:108-119 | the table becomes RowsAfterDelete of the old table and the answer says whether a row went |
| NodeTransactionRoutes.PostRejection | server/routes/transactions.js:25-37 | the first failing guard in order: a falsy field, then an amount `isNaN` rejects, then a date not in `YYYY-MM-DD` form; None exactly when all pass |
| NodeTransactionRoutes.PostResponse | server/routes/transactions.js:20-56 | 400 with the guard's message; 201 with the echoed fields and new id exactly when the guards pass and the insert succeeds; 500 otherwise |
| NodeTransactionRoutes.ZeroAmountIsMissing | server/routes/transactions.js:25-27 | an amount of 0 or "" is reported as a missing field |
| NodeTransactionRoutes.DateCheckIsSyntactic | server/routes/transactions.js:35-37 | any complete body with a numeric amount whose date is four, two and two digits joined by dashes passes the route's guards, whatever calendar date the digits name |
| NodeTransactionRoutes.ValidTextBodyIsCreated | server/routes/transactions.js:39-51 | a body of text fields and a valid amount that passes the guards is stored |
| NodeTransactionRoutes.PutRejection | server/routes/transactions.js:93-105 | an empty body, then a truthy non-numeric amount, then a truthy malformed date are refused in that order; falsy amount or date are not checked |
| NodeTransactionRoutes.UpdateOutcome | server/routes/transactions.js:109-116 | 200 exactly on true, 404 on false, 500 on a store error |
| NodeTransactionRoutes.PutResponse | server/routes/transactions.js:87-118 | 400 with the guard's message; otherwise 200, 404 or 500, with 200 exactly when the guards pass and the model updates a row |
| NodeTransactionRoutes.PutCannotSeeOtherOwners | server/routes/transactions.js:109-113 | for a row the caller does not own, the answer is the one for an empty table, and 404 when the keys are all columns |
| NodeTransactionRoutes.CamelCaseDateKeyFails | server/routes/transactions.js:103-116 | a valid body with the `transactionDate` key is answered 500 and changes no row |
| NodeTransactionRoutes.DeleteResponse | server/routes/transactions.js:125-139 | 200 exactly when the caller owns the row, otherwise 404 with the not-found message |
| NodeTransactionRoutes.NotFoundAnswersAgree | server/routes/transactions.js:109-113 | PUT and DELETE give a non-owner the same 404 |
| NodeTransactionRoutes.Post | server/routes/transactions.js:20-56 | the handler answers PostResponse and appends the row exactly on 201 |
| NodeTransactionRoutes.Put | server/routes/transactions.js:87-118 | the handler answers PutResponse; a rejected body leaves the table and its counter alone, otherwise the table becomes UpdatedRows and the counter NextIdAfterUpdate |
| NodeTransactionRoutes.Delete | server/routes/transactions.js:125-139 | the handler answers DeleteResponse and the table becomes RowsAfterDelete |
| NodeTransactionRoutes.FiltersFrom | server/routes/transactions.js:65-71 | the list route forwards the three query parameters, absent ones as undefined |
| NodeTransactionRoutes.DatesFrom | server/routes/transactions.js:173-178 | the category-summary route forwards only the two dates |
| NodeTransactionRoutes.ListResponse | server/routes/transactions.js:63-80 | 200 with the model's list for the query's filters: every matching row as often as it is stored and no other, newest first |
| NodeTransactionRoutes.SummaryResponse | server/routes/transactions.js:147-164 | 200 with a summary whose balance is income plus expenses |
| NodeTransactionRoutes.CategoryResponse | server/routes/transactions.js:171-187 | 200 with the model's summary for the query's date range: strictly ascending categories, one for each category of an in-range row of the caller and no other, each with the sum of that category's amounts |
| NodeTransactionRoutes.SummaryMatchesList | server/routes/transactions.js:149-155 | the summary route sums exactly the rows the list route returns for the same query |
| NodeTransactionRoutes.CategoryParamIgnored | server/routes/transactions.js:173-178 | adding, changing or dropping a category parameter leaves the category summary unchanged |
| NodeTransactionRoutes.EmptyCategoryParamIgnored | server/routes/transactions.js:65-71 | an empty category parameter lists what no parameter lists |
| NodeAuthRoutes.Signup | server/routes/auth.js:14-51 | 400 for a missing field, 400 for a taken email leaving the users alone, otherwise 201 with a new user under the next id and the hashed password, and a token signed over that id at the current time |
| NodeAuthRoutes.Login | server/routes/auth.js:58-98 | 400 for a missing field; 200 with a token signed over the user's id at the current time exactly when the email is known and the password matches; 400 otherwise |
| NodeAuthRoutes.SignupKeepsExistingUsers | server/routes/auth.js:24-27 | signing up never changes or removes an existing user |
| NodeAuthRoutes.LoginFailuresAreIndistinguishable | server/routes/auth.js:68-77 | an unknown email and a wrong password get the same answer |
| NodeAuthRoutes.SignupThenLogin | server/routes/auth.js:30-46 | after a successful sign-up, logging in with the same credentials succeeds for the new id; both tokens are signed over that id, each at its own issue time |
| NodeAuthRoutes.SignupKeepsIdsDistinct | server/routes/auth.js:30-46 | sign-up keeps every user keyed by its email, ids below the next id and no id shared |
| SpringRepositories.FindByUser | expense-tracker/src/main/java/com/expensetracker/repository/TransactionRepository.java:13 | exactly the user's entities, in stored order |
| SpringRepositories.SumByType | expense-tracker/src/main/java/com/expensetracker/repository/TransactionRepository.java:15-16 | null exactly when the user has no entity of that type, otherwise the sum of their amounts |
| SpringRepositories.CategoryTotalSplitsByType | expense-tracker/src/main/java/com/expensetracker/repository/TransactionRepository.java:18-19 | a category's total is its income plus its expense amounts |
| SpringRepositories.SumByCategory | expense-tracker/src/main/java/com/expensetracker/repository/TransactionRepository.java:18-19 | one row per category of the user's entities, no category twice, each with the sum of all its amounts |
| SpringRepositories.SumByCategoryMixesTypes | expense-tracker/src/main/java/com/expensetracker/repository/TransactionRepository.java:18-19 | income and expense amounts of a category are added together, with no type distinction |
| SpringRepositories.FindById | expense-tracker/src/main/java/com/expensetracker/service/TransactionServiceImpl.java:56-57 | an entity exactly when one with that id is stored, and then a stored one with that id |
| SpringRepositories.TransactionRepository.Insert | expense-tracker/src/main/java/com/expensetracker/service/TransactionServiceImpl.java:30-38 | save of a new entity appends it under the next id; ids stay unique |
| SpringRepositories.TransactionRepository.Replace | expense-tracker/src/main/java/com/expensetracker/service/TransactionServiceImpl.java:65-71 | save of an existing entity replaces the one with its id in place |
| SpringRepositories.TransactionRepository.Delete | expense-tracker/src/main/java/com/expensetracker/service/TransactionServiceImpl.java:88 | delete removes exactly the entity with that id |
| SpringRepositories.UserRepository.Insert | expense-tracker/src/main/java/com/expensetracker/service/UserServiceImpl.java:34-38 | a new user is stored under its email with the next id |
| SpringRepositories.UserRepository.FindByEmail | expense-tracker/src/main/java/com/expensetracker/service/UserServiceImpl.java:45-46 | a user exactly when the email is registered, and then that user |
| SpringTransactionService.AccessError | expense-tracker/src/main/java/com/expensetracker/service/TransactionServiceImpl.java:53-62 | user not found first, then transaction not found, then unauthorized when the owner differs; none exactly when the caller owns the entity |
| SpringTransactionService.FindAfterReplace | expense-tracker/src/main/java/com/expensetracker/service/TransactionServiceImpl.java:65-71 | after a replace, the id finds the new entity and every other id finds what it found before |
| SpringTransactionService.FindAfterDelete | expense-tracker/src/main/java/com/expensetracker/service/TransactionServiceImpl.java:88 | after a delete, the id finds nothing and every other id finds what it found before |
| SpringTransactionService.TransactionService.AddTransaction | expense-tracker/src/main/java/com/expensetracker/service/TransactionServiceImpl.java:25-39 | an unknown email fails and changes nothing; otherwise the request's fields are appended for that user under the next id, and the counter advances by one |
| SpringTransactionService.TransactionService.GetUserTransactions | expense-tracker/src/main/java/com/expensetracker/service/TransactionServiceImpl.java:42-48 | an unknown email fails; otherwise exactly the user's entities |
| SpringTransactionService.TransactionService.UpdateTransaction | expense-tracker/src/main/java/com/expensetracker/service/TransactionServiceImpl.java:51-72 | fails with AccessError's message and changes nothing, or overwrites the five request fields, keeping id and owner |
| SpringTransactionService.TransactionService.DeleteTransaction | expense-tracker/src/main/java/com/expensetracker/service/TransactionServiceImpl.java:75-89 | fails with AccessError's message and changes nothing, or removes exactly that entity |
| SpringTransactionService.UpdateReplacesOnlyThatEntity | expense-tracker/src/main/java/com/expensetracker/service/TransactionServiceImpl.java:65-71 | an allowed update leaves every other entity and the id set alone |
| SpringTransactionService.DeleteRemovesOnlyThatEntity | expense-tracker/src/main/java/com/expensetracker/service/TransactionServiceImpl.java:84-88 | an allowed delete removes that id only |
| SpringDashboardService.Summarize | expense-tracker/src/main/java/com/expensetracker/service/DashboardServiceImpl.java:33-39 | a null sum counts as 0 and the balance is income minus expense |
| SpringDashboardService.SummaryIsTypeTotals | expense-tracker/src/main/java/com/expensetracker/service/DashboardServiceImpl.java:28-42 | the summary's income and expense are the user's totals per type |
| SpringDashboardService.BreakdownKeys | expense-tracker/src/main/java/com/expensetracker/service/DashboardServiceImpl.java:50-58 | the map's keys are exactly the categories of the rows |
| SpringDashboardService.BreakdownLastWins | expense-tracker/src/main/java/com/expensetracker/service/DashboardServiceImpl.java:50-58 | a key's value is the total of its last row |
| SpringDashboardService.BreakdownIsCategoryTotals | expense-tracker/src/main/java/com/expensetracker/service/DashboardServiceImpl.java:45-61 | the breakdown maps exactly the user's categories, each to the sum of all its amounts |
| SpringDashboardService.DashboardService.GetSummary | expense-tracker/src/main/java/com/expensetracker/service/DashboardServiceImpl.java:28-42 | an unknown email fails; otherwise the summary of the two type sums |
| SpringDashboardService.DashboardService.GetCategoryBreakdown | expense-tracker/src/main/java/com/expensetracker/service/DashboardServiceImpl.java:45-61 | the loop's map is the breakdown of the category sums |
| SpringUserService.LoginAnswer | expense-tracker/src/main/java/com/expensetracker/service/UserServiceImpl.java:43-53 | a token exactly when the email is known and the password matches, otherwise the one invalid-login message |
| SpringUserService.UserService.Register | expense-tracker/src/main/java/com/expensetracker/service/UserServiceImpl.java:28-39 | a taken email fails and changes nothing; otherwise the user is stored with the encoded password |
| SpringUserService.UserService.Login | expense-tracker/src/main/java/com/expensetracker/service/UserServiceImpl.java:43-53 | the answer is LoginAnswer; a token is generated for the stored email |
| SpringUserService.LoginFailuresAreIndistinguishable | expense-tracker/src/main/java/com/expensetracker/service/UserServiceImpl.java:43-53 | an unknown email and a wrong password get the same answer |
| SpringUserService.RegisterThenLogin | expense-tracker/src/main/java/com/expensetracker/service/UserServiceImpl.java:28-53 | a registration followed by a login with the same credentials yields a token, given an encoder whose matcher accepts its own output |
| DashboardPage.Visible | expense-tracker-frontend/src/pages/Dashboard.js:65-82 | a transaction is shown exactly when it passes the category, start and end filters, in fetched order |
| DashboardPage.DefaultFiltersShowAll | expense-tracker-frontend/src/pages/Dashboard.js:14-16 | the initial filters show every transaction in order |
| DashboardPage.CategoryFilterIsExact | expense-tracker-frontend/src/pages/Dashboard.js:69-71 | a chosen category alone shows exactly the transactions of that category |
| DashboardPage.Composed | expense-tracker-frontend/src/pages/Dashboard.js:65-82 | the three filters applied one after another equal the single-pass Visible |
| DashboardPage.UniqueCategories | expense-tracker-frontend/src/pages/Dashboard.js:84 | "All" first, then each category of the transactions once, in order of first appearance |
| DashboardPage.Dashboard.constructor | expense-tracker-frontend/src/pages/Dashboard.js:10-17 | no transactions yet, the category filter 'All' and both dates '' |
| DashboardPage.Dashboard.HandleClearFilters | expense-tracker-frontend/src/pages/Dashboard.js:59-63 | the filters return to 'All', '' and '' and the transactions stay |
| DashboardPage.Dashboard.GetFilteredTransactions | expense-tracker-frontend/src/pages/Dashboard.js:65-82 | the step-by-step filtering returns Visible of the state |
| TransactionList.FormatAmount | expense-tracker-frontend/src/components/TransactionList.js:19-22 | the text starts with a minus exactly for an expense, followed by `$` |
| TransactionList.AmountClass | expense-tracker-frontend/src/components/TransactionList.js:24-26 | `amount-expense` exactly for an expense, `amount-income` otherwise |
| TransactionList.FormatIgnoresStoredSign | expense-tracker-frontend/src/components/TransactionList.js:19-22 | the text depends only on the amount's magnitude |
| TransactionList.FormatShape | expense-tracker-frontend/src/components/TransactionList.js:19-26 | "-$" exactly for an expense, "$" otherwise, always a point and two digits at the end; the class marks expense exactly when the minus is shown |
| TransactionList.FormatReadsBack | expense-tracker-frontend/src/components/TransactionList.js:20 | the digits read back as the magnitude rounded to cents |
| TransactionList.ListState.constructor | expense-tracker-frontend/src/components/TransactionList.js:7-8 | nothing is being edited, no delete is pending, and no dialog is shown |
| TransactionList.ListState.ConfirmShown | expense-tracker-frontend/src/components/TransactionList.js:120-121 | the confirmation dialog is shown exactly when the pending id is truthy, so never for id 0 |
| TransactionList.ListState.HandleEdit | expense-tracker-frontend/src/components/TransactionList.js:28-30 | the transaction is being edited; the pending delete stays |
| TransactionList.ListState.HandleDelete | expense-tracker-frontend/src/components/TransactionList.js:32-34 | the id awaits confirmation; nothing is deleted; the dialog is shown exactly when the id is not 0 |
| TransactionList.ListState.ConfirmDelete | expense-tracker-frontend/src/components/TransactionList.js:36-45 | deletes the pending id; on success clears it, hides the dialog and refreshes, on failure keeps it and the dialog and alerts |
| TransactionList.ListState.CancelDelete | expense-tracker-frontend/src/components/TransactionList.js:121-129 | the dialog closes without a request: no delete is pending and none is shown |
| TransactionList.ListState.CloseEdit | expense-tracker-frontend/src/components/TransactionList.js:114 | the modal closes |
| TransactionList.ListState.HandleEditComplete | expense-tracker-frontend/src/components/TransactionList.js:47-50 | the modal closes and the list refreshes |
| EditTransactionModal.InitialForm | expense-tracker-frontend/src/components/EditTransactionModal.js:6-12 | the form has exactly the five keys description, amount, category, type and date |
| EditTransactionModal.Validate | expense-tracker-frontend/src/components/EditTransactionModal.js:28-36 | a falsy field first, then an amount parsing to ≤ 0; NaN passes |
| EditTransactionModal.Payload | expense-tracker-frontend/src/components/EditTransactionModal.js:41-44 | the form's fields with the amount replaced by its parsed number (null for NaN) |
| EditTransactionModal.EditModal.constructor | expense-tracker-frontend/src/components/EditTransactionModal.js:6-14 | the form is InitialForm of the transaction, under its id, with no error and not loading |
| EditTransactionModal.EditModal.HandleChange | expense-tracker-frontend/src/components/EditTransactionModal.js:16-22 | only the named field changes |
| EditTransactionModal.EditModal.HandleSubmit | expense-tracker-frontend/src/components/EditTransactionModal.js:24-53 | a failing guard sets its message and sends nothing; otherwise the payload goes to the transaction's id, then refresh or the error text |
| EditTransactionModal.UntouchedFormIsSent | expense-tracker-frontend/src/components/EditTransactionModal.js:6-12 | an untouched valid form sends the transaction's own fields back |
| EditTransactionModal.ZeroTextMeetsTheAmountGuard | expense-tracker-frontend/src/components/EditTransactionModal.js:33-36 | the text "0" passes the first guard and is stopped by the second |
| EditTransactionModal.NonNumeralAmountIsSentAsNull | expense-tracker-frontend/src/components/EditTransactionModal.js:33-44 | an amount that is no numeral passes both guards and is sent as null |
| SignUpPage.Validate | expense-tracker-frontend/src/pages/SignUp.js:19-28 | a mismatch first, then a password shorter than 6 |
| SignUpPage.SignUp.constructor | expense-tracker-frontend/src/pages/SignUp.js:7-11 | the three inputs and the error are empty and nothing is loading; storage is as given |
| SignUpPage.SignUp.HandleSubmit | expense-tracker-frontend/src/pages/SignUp.js:14-47 | guards first; then register, and only after it succeeds login; on success the token and email are stored and the route is /dashboard; each failure sets its text |
| CategoryChart.Total | expense-tracker-frontend/src/components/CategoryChart.js:6 | the reduce returns the sum of the values |
| CategoryChart.SumOfPermutation | expense-tracker-frontend/src/components/CategoryChart.js:15 | sorting does not change the total |
| CategoryChart.SortDescending | expense-tracker-frontend/src/components/CategoryChart.js:15 | the array ends sorted by value, largest first, and is a permutation of the input |
| CategoryChart.SortedCopy | expense-tracker-frontend/src/components/CategoryChart.js:8-15 | the copied entries come back largest first, a permutation of the input |
| CategoryChart.LargeArcFlag | expense-tracker-frontend/src/components/CategoryChart.js:47 | "1" exactly when the sweep exceeds 180 degrees |
| CategoryChart.Layout | expense-tracker-frontend/src/components/CategoryChart.js:29-41 | each segment starts where the previous ends, with a sweep of value/total·360 and the colour at its index; the first starts at 0 and, with the real total, the last ends at 360 |
| CategoryChart.LaidOut | expense-tracker-frontend/src/components/CategoryChart.js:29-47 | laid-out segments carry the sorted entries in order, with cycling colours, sweeps of value/total·360 and the large-arc flag exactly on sweeps over 180 |
| CategoryChart.Segments | expense-tracker-frontend/src/components/CategoryChart.js:4-47 | the chart is a permutation of the entries, largest first, covering 0 to 360 contiguously, with cycling colours and the large-arc flag exactly on sweeps over 180 |
| CategoryChart.AtMostOneLargeArc | expense-tracker-frontend/src/components/CategoryChart.js:47 | with non-negative values, no two segments both take the large-arc flag |
| ClientApp.FormRejection | client/src/App.js:165-182 | a missing field first, then a NaN amount, then a date not in the pattern; the `=== ''` check can never fire |
| ClientApp.Payload | client/src/App.js:184-189 | exactly the four keys, the amount parsed (null for NaN), the rest as typed |
| ClientApp.RequestFor | client/src/App.js:193-213 | a PUT to the edited id when editing, a POST otherwise |
| ClientApp.DatePart | client/src/App.js:148 | the text before the first 'T': a prefix holding no 'T', followed by 'T' when shorter than the input |
| ClientApp.Submit | client/src/App.js:160-229 | nothing is sent when a guard fails; onSave runs exactly on an ok answer, which is exactly when no error is shown; failure texts are the data's message or the fallback, and the network message |
| ClientApp.DatePartOfTimestamp | client/src/App.js:148 | the form reads a serialised timestamp back as its calendar date |
| ClientApp.TransactionForm.constructor | client/src/App.js:143-158 | the form holds the edited row's fields (the date cut before 'T'), or is empty |
| ClientApp.TransactionForm.HandleSubmit | client/src/App.js:160-229 | the request, the callback, the error and the inputs are Submit's, and loading is off at the end |
| ClientApp.AcceptedPayloadPassesPutGuards | client/src/App.js:184-202 | whatever the form accepts, the server's PUT guards accept too |
| ClientApp.AcceptedNewTransactionIsSaved | client/src/App.js:204-222 | a new transaction with a non-zero amount is answered 201 and the form calls onSave |
| ClientApp.EditIsNeverSaved | client/src/App.js:184-202 | every edit the form sends is answered 500, changes no row, and shows that message |
| ClientApp.ZeroTextIsRefusedByTheServer | client/src/App.js:171-189 | the text "0" passes the client's guards and is refused by the server as a missing field |
| ClientApp.CardText | client/src/App.js:393-395 | a numeric field, or non-empty numeral text, is written to two decimals |
| ClientApp.SummaryCards | client/src/App.js:393-410 | a field that does not parse shows "NaN", and a balance that does not parse is not indigo |
| ClientApp.MissingFieldShowsZero | client/src/App.js:393-395 | a missing, null or zero summary field is shown as 0.00 |
| ClientApp.ExpensesShowTheirMagnitude | client/src/App.js:405 | the expenses card shows the magnitude of the amount to two decimals, or NaN |
| ClientApp.BalanceColour | client/src/App.js:409 | the balance is indigo exactly when it is not negative once rounded to cents |
| ClientApp.CardsOfServerSummary | client/src/App.js:393-410 | on the server's summary, the cards show the income, the expenses without their minus, and the signed balance |
| ClientApp.PieData | client/src/App.js:425-430 | at most one slice per entry, every slice with a positive value |
| ClientApp.SlicesComeFromEntries | client/src/App.js:425-430 | every slice is an entry with a non-zero total, under its category, sized by the absolute total |
| ClientApp.EveryChartedEntryHasASlice | client/src/App.js:425-430 | every entry with a non-zero numeric total has its slice |
| ClientApp.NoChartWhenNothingIsCharted | client/src/App.js:432 | no chart exactly when every total is 0 or not a number |
| ClientApp.PieDataKeepsOrder | client/src/App.js:425-430 | the slices keep the entries' order |
| ClientApp.PieDataKeepsAscendingNames | client/src/App.js:425-430 | entries ascending by category give slices ascending by name |
| ClientApp.PieOfServerTotals | client/src/App.js:425-430 | on the server's totals, one slice per non-zero category, ascending by category |
| ClientApp.OptionValue | client/src/App.js:624 | the 'All' option's value is the empty string; others carry their label |
| ClientApp.DateFilters | client/src/App.js:527-528 | the category-summary query has the filters without the category |
| ClientApp.DashboardFilters.constructor | client/src/App.js:468 | the three filters start empty |
| ClientApp.DashboardFilters.HandleFilterChange | client/src/App.js:588-591 | only the named filter changes |
| ClientApp.DashboardFilters.HandleClearFilters | client/src/App.js:593-595 | the three filters become '' |
| ClientApp.PieIgnoresTheCategoryFilter | client/src/App.js:527-528 | the chart's data never depends on the category filter |
| ClientApp.AllOptionListsEveryCategory | client/src/App.js:484 | choosing 'All' lists what a query without a category lists |
| ClientApp.ClearedFiltersListEverything | client/src/App.js:593-595 | with cleared filters the list is all the caller's transactions, newest first |
| ClientApp.Session.constructor | client/src/App.js:711-728 | the stored token and user are loaded, and the first page is StartPage of the storage |
| ClientApp.StartPage | client/src/App.js:717-726 | the dashboard exactly when a token and a user are both stored |
| ClientApp.Session.Login | client/src/App.js:730-736 | the token and user are set and stored, and the page is the dashboard |
| ClientApp.Session.Logout | client/src/App.js:738-744 | both are cleared and removed from storage, and the page is login |
| ClientApp.LoginSurvivesReload | client/src/App.js:711-736 | after a login a reload starts on the dashboard with the same token and user |
| ClientApp.LogoutSurvivesReload | client/src/App.js:711-744 | after a logout a reload starts on login with nothing stored |

## Left out

- **Storage and I/O.** MySQL itself is not modelled: its connections and its error paths other
  than the three store errors (unknown column, unstorable value, duplicate id) are left out. GET handlers'
  500 answers are left out for the same reason.
- **HTTP and React machinery.** Routing, JSON parsing, the token middleware and the Spring
  controllers are outside the core. Path ids are taken as integers. React rendering is not
  modelled. A submit's request and answer are one step, with the answer as a parameter.
- **JSON values.** Every request-body, summary and form field is taken to be null, a boolean, a
  number or a string. A field holding an array or an object (`"amount": [5]`, which `isNaN` lets
  through) cannot be represented.
- NodeTransactionModel.UnknownKeyFailsTheStatement: a patch key names a column only when it equals
  the column name as exact text. MySQL matches column names regardless of letter case, so a key
  such as `AMOUNT` would update the column and a key carrying SQL text (`amount = 0, category`)
  would run as written; neither is modelled, and the model answers both with an unknown-column
  error.
- **Asynchronous order.** The three fetches of each dashboard and `Promise.all` are commands
  whose interleaving is not modelled.
- **Dates.** Dates are compared as text. JavaScript `new Date` parsing, time zones and MySQL's
  DATE validation are not modelled; for `YYYY-MM-DD` text the order is the same
  (`Text.DateOrderIsChronological`).
- **Numbers.**
  - Amounts are exact reals, so the model makes no claim about floating-point rounding of sums
    and divisions.
  - MySQL returns DECIMAL sums as text; the model passes them as numbers.
  - `Number` and `parseFloat` are modelled on plain decimal numerals. Exponents, hex, Infinity,
    surrounding whitespace and `parseFloat`'s prefix parsing (`"5abc"`) are not; such text counts
    as NaN.
- Fixed.ToFixed2: toFixed writes a magnitude of 10^21 or more in exponent form (`"1e+21"`), but
  the model always writes `<digits>.<dd>`. So `Fixed.Magnitude2`, `Fixed.Magnitude2RoundTrip`,
  `Fixed.ToFixed2RoundTrip`, `TransactionList.FormatShape`, `TransactionList.FormatReadsBack`,
  `ClientApp.CardText` and `ClientApp.ExpensesShowTheirMagnitude` match the source only for
  magnitudes below 10^21.
- Fixed.Magnitude2RoundTrip: holds for the source only below 10^21, where toFixed does not switch to exponent form.
- Fixed.ToFixed2RoundTrip: holds for the source only below 10^21, where toFixed does not switch to exponent form.
- TransactionList.FormatShape: holds for the source only below 10^21, where toFixed does not switch to exponent form.
- TransactionList.FormatReadsBack: holds for the source only below 10^21, where toFixed does not switch to exponent form.
- ClientApp.CardText: holds for the source only below 10^21, where toFixed does not switch to exponent form.
- ClientApp.ExpensesShowTheirMagnitude: holds for the source only below 10^21, where toFixed does not switch to exponent form.
- **Text.** Strings are sequences of characters with no collation or case folding. `password.length`
  counts characters, not UTF-16 units. MySQL groups and orders categories by the column's
  collation, which may ignore case; the model groups by exact text and orders by code unit.
- **The user object.** It is kept in local storage as opaque text; JSON.stringify and
  JSON.parse of it are not modelled.
- **Chart drawing.** The percentages (`toFixed(0)`), `polarToCartesian`, `createArcPath` and the
  SVG are not modelled, only angles, colours and the large-arc flag.
- **Chart order.** Object.entries' key order is taken as given. The sort is a correct descending
  sort, but ties are not required to keep their order.
- CategoryChart.Segments: requires a non-zero total; the component divides by the total and its
  behaviour at 0 (NaN angles) is not modelled. Negative totals are covered.
- CategoryChart.Layout: requires a non-zero total, for the same division.
- CategoryChart.LaidOut: requires a non-zero total, for the same division.
- **Spring corner cases.** Java nulls in entity fields and requests, JPA transactions and Spring
  Security are not modelled. Password encoding and token generation are function parameters.
- **The Node client's inputs.** The TransactionForm's plain input setters and the category list
  offered by its select are not modelled, and neither is the dashboard's delete confirmation
  dialog (`window.confirm`).
- NodeTransactionModel.UpdatedRows: the SET list is applied as a map from column to value. The
  SQL text built by the key loop is not modelled, and neither is the order of the keys. The table
  is taken to have exactly the six columns the statements name; a key naming any other column
  counts as unknown.
- NodeTransactionModel.NewRow: the table's schema is not part of the source, so which values a
  column refuses is an assumption. The model's store takes a number, a boolean or numeric text
  for `amount`, a whole number for `id` and `user_id`, and only JSON text for the text and date
  columns. MySQL would also store a number in a text column, and may refuse a DATE that names no
  calendar day (`2024-13-45`) depending on its SQL mode; the model stores any text as a date.
