# Expense tracker API — a Dafny model of its handlers

This project models the request handlers of a small Express/Mongoose
expense tracker. It covers the authorization gate put in front of protected
routes, the handlers for users, roles, incomes and expenses, and the
summary report over a calendar window. Each handler is a pure function from
its inputs and the current collections to its JSON reply and the updated
collections:

- `Replies` — the reply `{ message, status, ... }` with its HTTP code.
- `Store` — a collection with soft delete (the mongoose-delete plugin).
  Deleted documents are hidden from `find`/`findOne`/`findById`/`updateOne`
  but stay visible to `findOneDeleted`.
- `Models` — the four schemas.
- `Calendar` — calendar dates, the strict `YYYY-MM-DD` format, and
  moment's "minus one day/week/month/year" step.
- `CheckPermission` — the gate.
- `Summary` — the summary report.
- `Ledger` — the handlers income and expense share. `ExpenseController` and
  `IncomeController` hold the two concrete handler sets.
- `UserController`, `RoleController` — the account and role handlers.
- `Lifecycle` — how the handlers compose across requests.

Three behaviours of the code are easy to miss, and the model keeps them:

- The summary query has only a lower bound (`$gte` on the window start).
  Documents dated after the end date are counted too
  (`Summary.FutureIncomeCounted`).
- The gate's two refusals share a message but differ in HTTP code: 500
  when the caller's role cannot be resolved, 200 when the permission is
  missing (`CheckPermission.RefusalsShareMessage`).
- A missing document makes "fetch one" answer 404 in the expense
  controller but 200 in the income controller.

## Model

| member | source | states |
|---|---|---|
| CheckPermission.Check | config/checkPermission.js:4-25 | a refusal always carries "You are not authorized to do that"; an unresolvable role gives 500; a live `superAdmin` role is let through; otherwise the request passes exactly when the first requested name is in the populated role's permissions, else 200 |
| CheckPermission.GateMatchesGrants | config/checkPermission.js:7-17 | when the populated role is the stored one, the gate allows exactly what the role grants (everything for `superAdmin`, else its listed permissions) |
| CheckPermission.SuperAdminPassesEverything | config/checkPermission.js:8-10 | a caller whose live role is named `superAdmin` passes every check |
| CheckPermission.OnlyFirstNameCounts | config/checkPermission.js:11 | names after the first one requested do not change the decision |
| CheckPermission.UserFieldsIrrelevant | config/checkPermission.js:4-25 | the caller's own fields, including an inactive status, take no part in the decision |
| CheckPermission.RefusalsShareMessage | config/checkPermission.js:14-22 | any two refusals carry the same message; the code is 500 exactly when the role could not be resolved |
| CheckPermission.StoredPermissionsIgnored | config/checkPermission.js:7-11 | changing a role's stored permissions does not change the decision, because permissions come from the snapshot taken at authentication |
| CheckPermission.EmptyNameRefused | config/checkPermission.js:11-17 | an empty permission name is refused with 200 unless the role grants it |
| Calendar.PrevDay | controllers/summaryController.js:31 | the day before is a valid earlier date, and the next day after it is the original date |
| Calendar.MinusDays | controllers/summaryController.js:31 | n days back is a valid date, earlier when n > 0, and n days forward from it returns the original date |
| Calendar.SubtractUnit | controllers/summaryController.js:30-31 | one unit back is a valid earlier date: a day back is undone by one day forward, a week back by seven days forward; a month back goes to the previous month (December of the year before from January); a year back keeps the month; both keep the day or clamp it to the month's last day |
| Calendar.YearBackFromLeapDay | controllers/summaryController.js:31 | a year back from February 29 is February 28 |
| Calendar.MonthBackClampsExamples | controllers/summaryController.js:31 | a month back from March 31 is February 28 or 29; from January 15 it is December 15 of the year before |
| Calendar.ParseDate | controllers/summaryController.js:14 | an accepted string is a real calendar date with a four-digit year, written exactly as YYYY-MM-DD |
| Calendar.FormatDate | controllers/summaryController.js:30-31 | `format('YYYY-MM-DD')` gives ten characters; `Calendar.FormatThenParse` and `Calendar.ParseThenFormat` make it the inverse of the strict parse |
| Calendar.FormatThenParse | controllers/summaryController.js:30 | parsing the YYYY-MM-DD spelling of a valid date gives that date back |
| Calendar.ParseThenFormat | controllers/summaryController.js:30 | a string the strict check accepts is the canonical spelling of its date, so formatting the parsed end date gives the same string |
| Calendar.StrictRejectsMalformed | controllers/expenseController.js:12 | single-digit months and days, and the day-first order, are refused |
| Calendar.StrictRejectsMonth13 | controllers/expenseController.js:12 | month 13 is refused |
| Calendar.StrictRejectsFebruary30 | controllers/expenseController.js:12 | February 30 is refused |
| Calendar.StrictAcceptsExample | controllers/expenseController.js:12 | "2022-09-30" is accepted as September 30, 2022 |
| Summary.ParseFilter | controllers/summaryController.js:22-28 | only the exact strings day, week, month and year are accepted, each as its own unit; an absent filter is refused |
| Summary.Round | controllers/summaryController.js:7-9 | the rounded amount is within half a unit of the amount, halves going up |
| Summary.Total | controllers/summaryController.js:7-9 | the `reduce(getSum, 0)` fold of rounded amounts: 0 for no documents, and never negative when no amount is negative (which the add handlers guarantee) |
| Summary.DuplicateRowsBothSelected | controllers/summaryController.js:32-41 | two stored rows holding equal documents are both returned, in row order |
| Summary.DuplicateRowsCountTwice | controllers/summaryController.js:52-53 | two equal in-window amounts are both added to the total |
| Summary.TotalOfTwo | controllers/summaryController.js:7-9 | the fold over two documents adds both rounded amounts |
| Summary.TotalNearSum | controllers/summaryController.js:52-53 | the per-item rounded total differs from the exact sum by at most half a unit per document |
| Summary.PerItemRounding | controllers/summaryController.js:7-9 | rounding happens per document: two amounts of 0.4 total 0 although 0.8 rounds to 1 |
| Summary.Select | controllers/summaryController.js:32-41 | the selection lists every live document dated on or after the start, one entry per stored row in insertion order, and nothing else (`Store.Enumerates`); duplicates are kept |
| Summary.WindowStart | controllers/summaryController.js:30-31 | the start is a valid date strictly before the end date, or before today when no end date is given |
| Summary.GetSummaryByFilter | controllers/summaryController.js:11-75 | a malformed end date is refused first, then a filter off the whitelist; on a valid query the reply succeeds exactly when some live income or expense is on or after the start; the payload holds the two selections, their rounded totals and the net |
| Summary.FutureIncomeCounted | controllers/summaryController.js:32-36 | an income dated on or after the end date is still part of the report, since there is no upper bound |
| Summary.ExplicitTodayIsDefault | controllers/summaryController.js:30 | giving today's date as the end date gives the same reply as leaving it out |
| Summary.DateCheckedBeforeFilter | controllers/summaryController.js:14-28 | a malformed end date is reported even when the filter is also wrong |
| Store.SoftDelete | controllers/roleController.js:111 | deleting keeps the document with the same identifier and hides only that one |
| Store.FirstLive | controllers/userController.js:108 | the first live document in insertion order matching the query, or none exactly when no live document matches |
| Store.LiveWhere | controllers/summaryController.js:32-41 | the query's result lists the live matching documents one per row in insertion order (`Store.Enumerates`), so it holds every live match and nothing else |
| Store.LiveIndices | controllers/summaryController.js:32-41 | the positions `find` returns: strictly increasing, each a live matching row, and every live matching row among them |
| Store.IncreasingSameElements | controllers/summaryController.js:32-41 | two strictly increasing lists of positions with the same elements are equal, so the listing of matches is unique |
| Store.LiveWhereUnique | controllers/summaryController.js:32-41 | any one-per-row, in-order listing of the live matches is exactly the query's result |
| Store.EnumeratesMembers | controllers/summaryController.js:32-41 | such a listing holds every live match and only documents of live matching rows |
| Store.LiveDocs | controllers/roleController.js:76 | `find()` lists every live document once per row in insertion order, and is empty exactly when every row is deleted |
| Store.LiveWhereEmpty | controllers/summaryController.js:44 | the query's result is empty exactly when no live document matches |
| Store.LiveWhereInsert | controllers/expenseController.js:36 | after a save, a query's result is the old result plus the new document if it matches |
| Store.FirstLiveStable | controllers/userController.js:180-185 | a write that changes no deletion flag and no queried field leaves the first match of the query where it was |
| Store.FirstLiveAfterInsert | controllers/userController.js:36 | when nothing matched before, a saved matching document becomes the first match |
| Ledger.AddError | controllers/expenseController.js:12-32 | the date is checked first, then a negative amount, then the text field's length; an add passes exactly when all three hold, and an amount of 0 passes |
| Ledger.AddEntry | controllers/expenseController.js:8-52 | on success exactly one document is appended, owned by the caller and returned with its identifier; a refusal carries the first failing check's message and changes nothing |
| Ledger.PatchError | controllers/expenseController.js:110-130 | an update passes exactly when each present, truthy field is valid; empty strings and an amount of 0 are never checked |
| Ledger.ApplyPatch | controllers/expenseController.js:137-141 | the fields present in the body are set and the others kept; an empty date becomes no date; a body `userId` moves the entry to that owner, and without one the owner is kept |
| Ledger.UpdateEntry | controllers/expenseController.js:106-155 | a refusal changes nothing; a pass reports success whether or not a live document has that identifier, and changes only that document: its fields as `ApplyPatch` sets them, and soft-deleted when the body carries `deleted: true` |
| Ledger.GetOneEntry | controllers/expenseController.js:80-104 | succeeds exactly for a live document and returns it; otherwise refuses with the kind's code |
| Ledger.DeleteEntry | controllers/expenseController.js:157-182 | succeeds exactly for a live document and only flags that one deleted |
| Ledger.AddThenGetOne | controllers/expenseController.js:34-43 | a document just added can be fetched back by the identifier the add returned |
| Ledger.DeleteHidesDocument | controllers/expenseController.js:157-182 | after a delete, fetching, deleting again and updating all miss the document |
| Ledger.UpdateOfMissingSucceeds | controllers/expenseController.js:137-146 | an update of an unknown or deleted identifier reports success and changes nothing |
| Ledger.EmptyTagBypassesCheck | controllers/expenseController.js:124-141 | an empty category skips the length check and replaces the stored one |
| Ledger.UpdateMovesOwner | controllers/expenseController.js:137-141 | a body `userId` is not checked and moves a live entry to another owner, leaving every other row as it was |
| Ledger.UpdateSoftDeletes | controllers/expenseController.js:137-141 | a body `deleted: true` soft-deletes a live entry through the update, with the same table as the delete handler gives, after which fetching it fails |
| ExpenseController.AddExpense | controllers/expenseController.js:8-52 | succeeds exactly for a strict date, a non-negative amount and a category of at least 3 characters, with the first failing check's message; a success appends the caller's expense |
| ExpenseController.UpdateExpense | controllers/expenseController.js:106-155 | the checks on present, truthy fields in order with their messages; on success only the live expense with that identifier is changed, including its owner when the body has `userId` and its soft-delete flag when the body has `deleted: true` |
| ExpenseController.GetOneExpense | controllers/expenseController.js:80-104 | a missing or deleted expense is answered with 404 "No expense found"; a live one is returned |
| ExpenseController.DeleteExpense | controllers/expenseController.js:157-182 | an unknown identifier is refused with "Expense not found!"; otherwise only that expense is flagged deleted |
| IncomeController.AddIncome | controllers/incomeController.js:8-52 | succeeds exactly for a strict date, a non-negative amount and a source of at least 3 characters, with the first failing check's message; a success appends the caller's income |
| IncomeController.UpdateIncome | controllers/incomeController.js:106-155 | the checks on present, truthy fields in order with their messages; on success only the live income with that identifier is changed, including its owner when the body has `userId` and its soft-delete flag when the body has `deleted: true` |
| IncomeController.GetOneIncome | controllers/incomeController.js:54-78 | a missing or deleted income is answered with 200 "No income found"; a live one is returned |
| IncomeController.DeleteIncome | controllers/incomeController.js:157-183 | an unknown identifier is refused with "Income not found!"; otherwise only that income is flagged deleted |
| RoleController.AddRole | controllers/roleController.js:8-46 | a name held by a live role is refused, then an empty permission list; an empty name fails in save; a success appends the role; no two live roles ever share a name |
| RoleController.GetOneRole | controllers/roleController.js:48-72 | succeeds exactly for a live role and returns it |
| RoleController.GetAllRoles | controllers/roleController.js:74-98 | succeeds exactly when a live role exists, and then lists every live role once per row in insertion order, and nothing else |
| RoleController.DeleteRole | controllers/roleController.js:100-125 | succeeds exactly for a live role and flags only it deleted; live names stay distinct |
| RoleController.DuplicateRefusedAfterAdd | controllers/roleController.js:11-18 | once a role is added, adding another role of that name is refused |
| RoleController.NameReusableAfterDelete | controllers/roleController.js:11-18 | after its only live holder is deleted, a role name can be used again |
| UserController.EmailTakenByAnyRow | controllers/userController.js:12-14 | the email check looks at live and deleted accounts alike |
| Models.NewUser | models/user.js:22-31 | a new account gets the schema defaults: no role and the `inactive` status, with the given name, email and password hash |
| Models.PasswordMatches | controllers/userController.js:122 | `bcrypt.compare` succeeds exactly when the stored hash was made from the given password |
| UserController.RegisterUser | controllers/userController.js:9-52 | a taken email is refused first, then a mismatched confirmation; an empty name or email fails in save; a success appends an inactive account without a role; emails stay distinct |
| UserController.RoleName | controllers/userController.js:130-134 | the role name is reported only for a live role with a non-empty name |
| UserController.UserLogin | controllers/userController.js:106-165 | an unknown email is refused, then an inactive account whatever the password, then a wrong password; a success carries a token for the account and its role's name |
| UserController.ApproveUser | controllers/userController.js:167-200 | an unknown email is refused; a role name no live role has fails with 500 before any write; a success gives the first matching account that role and activates it |
| UserController.SetStatus | controllers/userController.js:213-217 | only the status of the first matching account changes |
| UserController.DeactivateUser | controllers/userController.js:202-231 | an unknown email is refused; otherwise the account becomes inactive, keeps its role, and nothing else changes |
| UserController.ActivateUser | controllers/userController.js:233-263 | an unknown email is refused; otherwise the account becomes active, keeps its role, and nothing else changes |
| UserController.DeleteUser | controllers/userController.js:265-290 | succeeds exactly for a live account and flags only it deleted; emails stay distinct |
| Lifecycle.NewAccountCannotLogIn | controllers/userController.js:31-36 | a freshly registered account is refused as inactive at login, whatever the password |
| Lifecycle.NewAccountDenied | config/checkPermission.js:7-22 | a freshly registered account has no role, so the gate refuses it with 500 |
| Lifecycle.ApprovedAccountGate | controllers/userController.js:178-185 | after approval the gate allows exactly what the approving role grants |
| Lifecycle.ApprovedAccountLogsIn | controllers/userController.js:115-156 | after approval the right password logs in and the reply names the role |
| Lifecycle.DeactivatedAccountCannotLogIn | controllers/userController.js:213-217 | after deactivation the account is refused as inactive, whatever the password |
| Lifecycle.ActivatedAccountLogsIn | controllers/userController.js:244-248 | after activation the account logs in exactly when the password matches the stored hash |
| Lifecycle.DeletedEmailStaysTaken | controllers/userController.js:12-20 | a deleted account's email still blocks registration |
| Lifecycle.DeletedAccountCannotLogIn | controllers/userController.js:108-114 | with distinct emails, a deleted account's email is reported as not found at login |
| Lifecycle.DeletedRoleLocksOutHolders | config/checkPermission.js:7-8 | deleting a role makes the gate refuse every account that still refers to it with 500 |
| Lifecycle.AddedExpenseInSummary | controllers/summaryController.js:63-67 | an expense just added with a date on or after the window start appears in that summary |

## Left out

- Process wiring, the logger, routes and request parsing are not modelled.
  Handlers take their fields as typed parameters, so an absent or mistyped
  body field is not modelled. In the source the outcome depends on the
  field. An absent `date` in `addIncome`/`addExpense` fails moment's strict
  check and is refused with 200 and the date-format message. An absent
  `category`/`source` or role `permissions` throws on `.length` and gives
  500. An absent `amount` passes the sign check and then fails the schema's
  `required` rule in `save()`, giving 500.
- Malformed identifiers (Mongo's CastError, giving 500) are not modelled.
  An identifier is a table position.
- Faults of the datastore (connection loss, timeouts) are not modelled.
  They all give 500 in the source.
- bcrypt is modelled as a wrapper around the secret, and JWT signing as its
  claims. Salt rounds, the secret key and the 60-day expiry are left out.
- Models.PasswordMatches: bcrypt reads only the first 72 bytes of a
  password, so two long passwords sharing those bytes both match. The model
  compares whole passwords. The login lemmas that say "exactly with its
  password" hold up to this truncation.
- The passport strategy that fills `req.user` is not part of this model.
  `Lifecycle.AuthenticatedAs` states what it is assumed to provide.
- `getAllUsers`, `getOneUser`, `getAllExpenses` and `getAllIncomes` are
  left out. They are plain reads with no checks.
- Amounts are exact reals. IEEE-754 rounding of sums and of `Math.round`
  on huge values is not modelled.
- Time zones, the clock and timestamps are left out. "Today" is a
  parameter of the summary.
- Summary.GetSummaryByFilter: requires an `end` other than the empty
  string. The empty string passes the truthiness guard and then goes
  through moment's lenient parser, which is not modelled.
- Ledger.UpdateEntry: a body `userId` or `deleted` whose value cannot be
  cast (not an identifier, not a boolean) makes `updateOne` throw, giving
  500; the model's patch holds only well-typed values. Body fields that
  are not schema paths are dropped by Mongoose's strict mode, so the patch
  leaves them out.
- Ledger.PatchError: a date that is present but not a string is not
  modelled.
- Text lengths count characters, not JavaScript's UTF-16 code units.
- Concurrency between requests (for example two registrations racing past
  the email check) is not modelled. Each handler runs alone.
