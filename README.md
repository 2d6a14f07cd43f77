# Budget tracker: a verified model of the backend rules and the list logic

This project models, in Dafny, the decision logic of the Budget-tracker
application (an Express/PostgreSQL backend with a React frontend). The
database is abstract state: a `Store.Database` object whose budgets,
transactions and notifications are sequences the handlers reassign. The
currency table and the user table are classes of their own. JWT signing and
verification, bcrypt and the clock are parameters.

Modules, one per source file, plus shared helpers:

- `BudgetNotifications` — the budget-exceeded evaluator `checkBudgetsAndNotify`:
  - candidate selection (creation path or transaction path);
  - the period window of a budget: an explicit month, a Monday-anchored week, or a month anchored on `period_start_day`;
  - period spend plus the triggering expense;
  - the threshold, the 12-hour dedupe and the appended notification.
- `BudgetProperties` — lemmas about the evaluator:
  - it only appends;
  - what each window is;
  - percent and threshold;
  - dedupe;
  - a worked example over March 2025.
- `BudgetRoutes` — create (duplicate check, insert, created notice, evaluator call), list ordered by month, delete by owner.
- `TransactionController` — add, delete, update and CSV import:
  - required fields and id parsing;
  - the 404/403 choice;
  - the update payload;
  - the column whitelist and all-or-nothing import.
- `CurrencyRoutes` — the global currency table:
  - POST upsert with `force` and `is_default`;
  - PUT `/default`;
  - DELETE;
  - the invariant "at most one default".
- `AuthMiddleware` — `verifyToken`: token-source precedence and user-id normalisation.
- `ServerAuth` — the CORS origin predicate, the sign-up password pattern, sign-up, sign-in and Google find-or-create.
- `DbConfig` — `masked` and the pool-configuration choice.
- `TransactionPage`, `Sidebar`, `SignUpForm` — frontend list filters, totals, category names, the menu and sign-up validation.
- Helpers:
  - `CivilDates` — UTC calendar arithmetic of section 21.4.1 of ECMA-262, with JavaScript's `setDate`/`setMonth` rollover;
  - `JsText` — `trim`, case mapping, `split`, `includes`, `parseInt`, `Number`;
  - `Store` — JSON-like values and tables;
  - `SeqUtil` — `filter`;
  - `Wrappers` — `Option`.

Modelling choices:

- **Dates** are day numbers since 1970-01-01 (UTC). A window is the inclusive pair of first and last `YYYY-MM-DD` days. The evaluator compares exactly these.
- **Money** is an integer in minor units. For a positive budget, `percentAfter >= 100` is `newSpent >= budgetAmount` (`ThresholdIsPercent`). `Math.round` of the percent is an integer division proved to be the nearest integer (`RoundedPercentIsNearest`).
- **`Number(text)`** follows the StringNumericLiteral grammar of section 7.1.4.1.1 of ECMA-262 (`JsText.StringToNumber`): trimmed text, blank as 0, signed decimal literals with fraction and exponent, unsigned `0x`/`0o`/`0b` literals, a signed `Infinity`, and NaN for everything else. Values are exact. A magnitude of at least 2^1024 - 2^970 becomes an infinity, as rounding to a double makes it. Where a handler needs an integer, `JsText.StringToInt` gives the integral value and `None` for NaN, the infinities and fractions. JavaScript truthiness is `Store.Truthy`.
- **Request values** of the create and add handlers arrive already typed (numbers as `Num`). The budget DELETE takes its id as URL text, which PostgreSQL casts to `integer` (`Store.PgInteger`).
- **A database failure** that the source catches and then continues past is a parameter:
  - `Faults` for the evaluator;
  - `noticeFails` for the notice inserts;
  - `failAt` for the import.

  The outer `catch` that answers 500 is modelled only for a cast the query cannot make: an id outside the `integer` range in the budget and transaction DELETE and the transaction update. Other failures of the add, create, delete and update queries are taken not to happen (see "## Left out").

**Two behaviours of the evaluator look unintended. The model follows the code in both, and lemmas exhibit each.**

1. *The new expense is counted twice.* The add handler inserts the new transaction before it calls the evaluator (transactionController.js:16-45). The period `SUM` therefore already holds the new row, and the evaluator adds the row's amount a second time. The evident intent is "spend so far plus the new expense": with 900 already spent and a new expense of 150, `newSpent` should be 1050. Once the add handler has inserted the 150, the evaluator computes 1200 instead.
   - `BudgetProperties.ExampleBeforeInsert` gives the intended 1050 and 105 %, for an expense not yet stored;
   - `BudgetProperties.ExampleAfterInsert` gives 1200 and 120 %;
   - `BudgetProperties.DoubleCountFalseAlarm` reports a budget as exceeded when 900 of 1000 has been spent.
2. *A zero budget falls back to the expense.* The model reads a budget's amount as a JavaScript number, as a PostgreSQL `integer`, `bigint` or floating column returns it. The skip rule reads "a budget whose amount is not positive is skipped". But `Number(b.amount || insertedObj?.amount || 0)` (budgetNotifications.js:124) treats a budget amount of 0 as missing and takes the triggering expense's amount instead.
   - A negative budget is skipped (`BudgetProperties.NegativeBudgetNeverNotifies`).
   - So is a missing or non-positive effective amount (`BudgetProperties.NoAmountNoNotice`).
   - A zero budget, however, is reported exceeded by any positive in-window expense when no recent notice dedupes it (`BudgetProperties.ZeroBudgetFallsBackToExpense`).
   - Were the column `NUMERIC`, `pg` would return the text "0.00", which is truthy. `Number` would then give 0 and the budget would be skipped. Which of the two happens depends on the column type, which the repository does not fix.

## Model

| member | source | states |
|---|---|---|
| BudgetNotifications.CategoryParam | Budget-tracker/backend/utils/budgetNotifications.js:25 | a missing, null, zero, empty or false `category_id`, or text that is not a number, gives NULL; a non-zero number is kept, `true` is 1, and the text of a finite signed integer gives that integer |
| BudgetNotifications.CategoryParamOfText | Budget-tracker/backend/utils/budgetNotifications.js:25 | the decimal text of any non-zero safe integer selects that category |
| BudgetNotifications.CategoryParamExponent | Budget-tracker/backend/utils/budgetNotifications.js:25 | the text "1e3" selects category 1000, as `Number` reads exponent literals |
| BudgetNotifications.LatestMatching | Budget-tracker/backend/utils/budgetNotifications.js:30-40 | the creation query returns a budget of this user and month whose category is NULL or equal, with the largest `budget_id` among those; it returns none exactly when no budget matches |
| BudgetNotifications.ActiveMatching | Budget-tracker/backend/utils/budgetNotifications.js:41-48 | the transaction query returns exactly the user's active budgets whose category is NULL or equal |
| BudgetNotifications.Candidates | Budget-tracker/backend/utils/budgetNotifications.js:25-54 | with truthy `month` and `amount`, at most one candidate: the latest matching budget, or none when nothing matches; otherwise exactly the active matching budgets |
| BudgetNotifications.PeriodRange | Budget-tracker/backend/utils/budgetNotifications.js:56-88 | `getPeriodRange`: the budget's month when it has one, else the Monday week for "weekly", else the month anchored on `period_start_day` (1 when missing or 0); what each window is, is stated by `BudgetProperties.MonthWindowIsCalendarMonth`, `BudgetProperties.WeekWindowIsMondayWeek` and `BudgetProperties.AnchoredWindowContainsRef` |
| BudgetNotifications.WeekStart | Budget-tracker/backend/utils/budgetNotifications.js:68-71 | `start.setDate(txnDate.getDate() - diff)` lands exactly `diff = (getDay() + 6) % 7` days before the reference date, across month and year boundaries |
| BudgetNotifications.Spent | Budget-tracker/backend/utils/budgetNotifications.js:100-112 | the period sum is 0 when no row is counted and never negative when no amount is; `BudgetProperties.SpentAppend` states how each row adds to it |
| BudgetNotifications.NewSpent | Budget-tracker/backend/utils/budgetNotifications.js:115-122 | a context that is not an expense leaves the spend as it is; a numeric context amount never makes it NaN and adds either nothing or exactly that amount |
| BudgetNotifications.EffectiveAmount | Budget-tracker/backend/utils/budgetNotifications.js:124 | a non-zero budget amount is used as it is; a missing or zero one falls back to the context's amount, and is 0 when that is falsy; a numeric context amount is never NaN |
| BudgetNotifications.DedupeHit | Budget-tracker/backend/utils/budgetNotifications.js:133-145 | a hit needs a non-zero budget id and a non-empty log |
| BudgetNotifications.Assess | Budget-tracker/backend/utils/budgetNotifications.js:124-155 | a notice is produced only for a positive effective amount, is the user's `budget` notice stamped with the call's time, and is never produced on a dedupe hit of a budget without a month |
| BudgetNotifications.Evaluate | Budget-tracker/backend/utils/budgetNotifications.js:21-169 | a failing candidate query, or no candidate at all, leaves the notifications as they were |
| BudgetNotifications.PeriodSpend | Budget-tracker/backend/utils/budgetNotifications.js:92-122 | `newSpent` is the window's expense sum for the user (and budget category), plus the context's amount when the context is an expense dated inside the window; NaN when that amount is not a number |
| BudgetNotifications.AddTriggeringExpense | Budget-tracker/backend/utils/budgetNotifications.js:116-121 | `newSpent` starts at `currentSpent` and grows by `Number(amount \|\| 0)` only for an expense dated inside the window: the result is `NewSpent`, whose contract says a non-expense leaves the spend unchanged and a numeric amount adds exactly that amount or nothing |
| BudgetNotifications.AssessBudget | Budget-tracker/backend/utils/budgetNotifications.js:91-159 | one budget's iteration appends exactly the notification `Assess` determines: none for a non-positive or NaN amount, otherwise one when spend reaches the amount and no dedupe hit occurs |
| BudgetNotifications.CheckBudgetsAndNotify | Budget-tracker/backend/utils/budgetNotifications.js:21-169 | budgets and transactions are untouched; the notifications table becomes `Evaluate` of the old one: a failing candidate query changes nothing, and a failing budget is skipped while the others are still processed |
| BudgetProperties.RunOnlyAppends | Budget-tracker/backend/utils/budgetNotifications.js:90-163 | the loop keeps the old log as a prefix, adds at most one row per candidate, and every added row is a high-priority `budget` "Budget exceeded" notice for the user pointing at `/budgets` |
| BudgetProperties.EvaluateOnlyAppends | Budget-tracker/backend/utils/budgetNotifications.js:21-169 | one call only appends exceeded notices, at most one per candidate, and at most one on the creation path |
| BudgetProperties.MonthWindowIsCalendarMonth | Budget-tracker/backend/utils/budgetNotifications.js:57-64 | a budget's `month` window runs from the 1st to the last day of that calendar month (`Date.UTC` maps years 0-99 to 1900-1999), and spans as many days as the month has |
| BudgetProperties.MonthWindowDays | Budget-tracker/backend/utils/budgetNotifications.js:61-63 | the end of a month window is the next month's start minus one day, i.e. the month's last day |
| BudgetProperties.WeekWindowIsMondayWeek | Budget-tracker/backend/utils/budgetNotifications.js:67-76 | a weekly window starts on a Monday, spans seven days and contains the reference date |
| BudgetProperties.WeekStartIsMonday | Budget-tracker/backend/utils/budgetNotifications.js:68-72 | the weekly start is the reference date moved back `(weekday + 6) % 7` days, and that day is a Monday |
| BudgetProperties.AnchoredWindowContainsRef | Budget-tracker/backend/utils/budgetNotifications.js:78-87 | for an anchor from 1 to 28 the window starts on the anchor day, lasts one calendar month and contains the reference date |
| BudgetProperties.AnchoredStartFacts | Budget-tracker/backend/utils/budgetNotifications.js:78-83 | for an anchor from 1 to 28 the start is an anchor day at most one month length before the reference date |
| BudgetProperties.AnchoredThisMonth | Budget-tracker/backend/utils/budgetNotifications.js:79-81 | when the day of month has reached the anchor (`setDate(day)` in place), the start is an anchor day at or before the reference date, less than its month's length before it |
| BudgetProperties.AnchoredLastMonth | Budget-tracker/backend/utils/budgetNotifications.js:79-82 | when the day of month is before the anchor (the month is stepped back first), the start is still an anchor day at or before the reference date, less than its month's length before it |
| BudgetProperties.LastMonthStart | Budget-tracker/backend/utils/budgetNotifications.js:82 | `setMonth(m - 1)` then `setDate(anchor)` lands on the anchor day of the previous calendar month, with the year carried back in January |
| BudgetProperties.LargeAnchorMissesRef | Budget-tracker/backend/utils/budgetNotifications.js:78-87 | for anchor 31 and 1 March of a common year, the start rolls over to 3 March and the window does not contain the reference date |
| BudgetProperties.OwnExpenseCounted | Budget-tracker/backend/utils/budgetNotifications.js:115-122 | for a recurring budget (weekly, or anchored at most on day 28), a dated expense context always lies inside its own window, so its amount is added |
| BudgetProperties.RecurringWindowContainsRef | Budget-tracker/backend/utils/budgetNotifications.js:66-87 | a weekly budget's window, or a monthly one anchored on days 1 to 28, contains the reference date |
| BudgetProperties.NewSpentInWindow | Budget-tracker/backend/utils/budgetNotifications.js:116-121 | an expense context dated in the window adds exactly its amount to the current spend |
| BudgetProperties.SpentAppend | Budget-tracker/backend/utils/budgetNotifications.js:101-112 | appending a transaction raises the period sum by its amount exactly when it is counted (user, `expense`, date in window, category when the budget has one) |
| BudgetProperties.ThresholdIsPercent | Budget-tracker/backend/utils/budgetNotifications.js:130-148 | for a positive budget, `newSpent / amount * 100 >= 100` holds exactly when `newSpent >= amount` |
| BudgetProperties.RoundedPercentIsNearest | Budget-tracker/backend/utils/budgetNotifications.js:154 | the stored percent is within half a unit of the exact percentage, rounding halves up as `Math.round` does |
| BudgetProperties.NoticeReportsAtLeast100 | Budget-tracker/backend/utils/budgetNotifications.js:148-155 | every exceeded notice carries `percent >= 100` |
| BudgetProperties.RecurringNoticeDeduped | Budget-tracker/backend/utils/budgetNotifications.js:133-148 | after a recurring budget's notice, another call for the same user and budget within 12 hours adds nothing for it |
| BudgetProperties.MonthBudgetNotDeduped | Budget-tracker/backend/utils/budgetNotifications.js:133-145 | for a budget with a month the log is never consulted: the outcome is the same whatever notifications exist |
| BudgetProperties.ExampleEvaluate | Budget-tracker/backend/utils/budgetNotifications.js:41-54 | with one matching budget and no failures, the call appends exactly the notice `Assess` gives for that budget |
| BudgetProperties.ExampleSpentOne | Budget-tracker/backend/utils/budgetNotifications.js:101-112 | an expense of the budget's user and category in March 2025 is counted in full |
| BudgetProperties.ExampleSpentTwo | Budget-tracker/backend/utils/budgetNotifications.js:101-112 | two such expenses are summed |
| BudgetProperties.AssessReached | Budget-tracker/backend/utils/budgetNotifications.js:124-155 | a positive amount reached by the spend, with no dedupe hit, yields the exceeded notice carrying that amount and spend |
| BudgetProperties.BelowAmountNoNotice | Budget-tracker/backend/utils/budgetNotifications.js:124-133 | a new spend that is NaN or below the effective amount never yields a notice |
| BudgetProperties.NoticeIffReached | Budget-tracker/backend/utils/budgetNotifications.js:124-155 | a notice is produced exactly when the effective amount is positive, the new spend reaches it and no recent notice dedupes a recurring budget |
| BudgetProperties.NoAmountNoNotice | Budget-tracker/backend/utils/budgetNotifications.js:124-128 | a NaN, zero or negative effective amount produces no notice |
| BudgetProperties.NegativeBudgetNeverNotifies | Budget-tracker/backend/utils/budgetNotifications.js:124-128 | a negative budget amount never produces a notice, whatever the context |
| BudgetProperties.ZeroBudgetFallsBackToExpense | Budget-tracker/backend/utils/budgetNotifications.js:124-155 | a budget of 0 with a positive in-window expense is reported exceeded against the expense's own amount |
| BudgetProperties.AssessCountsNewExpense | Budget-tracker/backend/utils/budgetNotifications.js:115-155 | for a budget of 1000, a new expense in the window that brings the spend to at least 1000 yields a notice with the prior spend plus the expense |
| BudgetProperties.ExampleAssess | Budget-tracker/backend/utils/budgetNotifications.js:21-169 | for the March 2025 budget of 1000, a new expense bringing the total to at least 1000 makes the call append exactly one notice with that total |
| BudgetProperties.ExampleBeforeInsert | Budget-tracker/backend/utils/budgetNotifications.js:115-154 | 900 spent before a 150 expense that is not yet stored gives spend 1050 and percent 105 |
| BudgetProperties.ExampleAddedRowCountedTwice | Budget-tracker/backend/controllers/transactionController.js:16-45 | when the new expense is already stored, its amount is counted twice: the notice reports `a1 + 2 * a2` |
| BudgetProperties.ExampleAfterInsert | Budget-tracker/backend/controllers/transactionController.js:16-45 | 900 spent plus an already stored 150 expense reports 1200 and percent 120 |
| BudgetProperties.DoubleCountFalseAlarm | Budget-tracker/backend/controllers/transactionController.js:16-45 | a period whose stored spend is 900 of 1000 is reported exceeded, with 1200 |
| BudgetRoutes.CreationContext | Budget-tracker/backend/routes/budgetRoutes.js:76 | the evaluator receives only category, amount and month: no type and no date, so no amount is ever added to the spend |
| BudgetRoutes.CreateBudget | Budget-tracker/backend/routes/budgetRoutes.js:25-87 | a duplicate returns 400 and changes nothing; otherwise exactly one row with the request's fields and the next id is appended, 201 is returned whatever the notice insert or the check does, and the log gains the created notice (unless it fails) followed by the evaluator's notices |
| BudgetRoutes.FindDuplicate | Budget-tracker/backend/routes/budgetRoutes.js:31-37 | the duplicate query finds a row exactly when a budget of this user with equal non-null category and month exists |
| BudgetRoutes.CreatedSlotIsTaken | Budget-tracker/backend/routes/budgetRoutes.js:31-50 | once a budget with a category and a month is created, the same request is a duplicate |
| BudgetRoutes.NullSlotNeverDuplicate | Budget-tracker/backend/routes/budgetRoutes.js:31-35 | a request with a NULL category or month is never a duplicate (SQL `=` on NULL) |
| BudgetRoutes.CreatedNoticeNeverDedupes | Budget-tracker/backend/routes/budgetRoutes.js:53-66 | the created notice has no `data`, so it never counts as a dedupe hit for any budget |
| BudgetRoutes.CreationEvaluatesNewBudget | Budget-tracker/backend/routes/budgetRoutes.js:44-76 | for a created budget with an amount and month, the evaluator's only candidate is the new row |
| BudgetRoutes.OwnedBy | Budget-tracker/backend/routes/budgetRoutes.js:13-16 | the list holds exactly the caller's budgets |
| BudgetRoutes.InsertByMonth | Budget-tracker/backend/routes/budgetRoutes.js:14 | inserting keeps every row: the result is the old rows plus the new one |
| BudgetRoutes.InsertKeepsSorted | Budget-tracker/backend/routes/budgetRoutes.js:14 | inserting into a list ordered by month descending keeps it ordered |
| BudgetRoutes.SortByMonthDesc | Budget-tracker/backend/routes/budgetRoutes.js:14 | the order is a permutation of the rows, ordered by month descending (NULL months first, as PostgreSQL's `DESC` puts them) |
| BudgetRoutes.ListBudgets | Budget-tracker/backend/routes/budgetRoutes.js:10-17 | GET returns exactly the caller's budgets, each as often as stored, ordered by month descending |
| BudgetRoutes.Remaining | Budget-tracker/backend/routes/budgetRoutes.js:94-97 | the rows left are exactly those not matching both the id and the caller |
| BudgetRoutes.DeleteBudget | Budget-tracker/backend/routes/budgetRoutes.js:90-103 | an id that PostgreSQL cannot cast to `integer` makes the query fail: 500 and no change; otherwise DELETE removes only the caller's row with that id and answers 200 even when nothing matched |
| Store.PgInteger | Budget-tracker/backend/routes/budgetRoutes.js:94-97 | the cast of the URL text to `integer` succeeds only for a signed run of decimal digits between spaces, and its value lies in the 32-bit range |
| Store.PgIntegerOfString | Budget-tracker/backend/routes/budgetRoutes.js:94-97 | the decimal text of any 32-bit integer casts back to it |
| Store.PgIntegerRejects | Budget-tracker/backend/routes/budgetRoutes.js:94-101 | "abc" and "1.5" do not cast, so their DELETE answers 500 |
| BudgetRoutes.DeleteKeepsOthers | Budget-tracker/backend/routes/budgetRoutes.js:94-97 | another user's budgets are untouched by a delete |
| TransactionController.AddTransaction | Budget-tracker/backend/controllers/transactionController.js:7-52 | missing merchant, amount, category or date gives 400 and changes nothing; otherwise the row is inserted with the next id, the notice (unless its insert fails) and the evaluator's notices follow, and 201 returns the row |
| TransactionController.AddedExpenseCountedTwice | Budget-tracker/backend/controllers/transactionController.js:16-45 | for an expense in the window, the evaluator's spend after the insert is the earlier sum plus twice the amount |
| TransactionController.ZeroAmountRejected | Budget-tracker/backend/controllers/transactionController.js:12-14 | an amount of 0 is rejected as missing |
| TransactionController.CurrencyDefault | Budget-tracker/backend/controllers/transactionController.js:24 | a missing or empty currency is stored as "INR", any other is kept |
| TransactionController.ParseId | Budget-tracker/backend/controllers/transactionController.js:76 | text whose `Number` is NaN or infinite, and blank text, give no id; the text of a finite signed integer gives that integer; any id comes from text whose `Number` is finite |
| TransactionController.ParseIdOfString | Budget-tracker/backend/controllers/transactionController.js:76 | the decimal text of any safe integer parses back to that integer |
| TransactionController.OverflowingIdRefused | Budget-tracker/backend/controllers/transactionController.js:75-78 | "1e400" is infinite as a number, so it gives no id |
| TransactionController.TextIdRefused | Budget-tracker/backend/controllers/transactionController.js:75-78 | "abc" gives no id |
| TransactionController.ExponentId | Budget-tracker/backend/controllers/transactionController.js:75-78 | "1e3" is finite, and `parseInt` reads only its leading "1" |
| TransactionController.HexIdRefused | Budget-tracker/backend/controllers/transactionController.js:75-78 | "0x10" is finite, `parseInt` gives 0, and the id is refused as falsy |
| TransactionController.WithoutOwned | Budget-tracker/backend/controllers/transactionController.js:83 | the rows left after delete are exactly those not owned by the caller under that id |
| TransactionController.DeleteRemovesIffOwned | Budget-tracker/backend/controllers/transactionController.js:83-85 | the delete removes a row exactly when the caller owns a row with that id |
| TransactionController.DeleteTransaction | Budget-tracker/backend/controllers/transactionController.js:73-103 | an unusable id (NaN or 0) gives 400 and no change; an id outside the `integer` range makes the query fail, giving 500 and no change; otherwise the caller's row is removed and the status is 200, or 404 when no row has the id, or 403 when someone else's does |
| TransactionController.LargeIdOutOfRange | Budget-tracker/backend/controllers/transactionController.js:76-79 | decimal text of a safe integer above 2147483647, such as "3000000000", passes the id check but cannot be cast to `integer` |
| TransactionController.BuildPayload | Budget-tracker/backend/controllers/transactionController.js:179-183 | the payload holds exactly the allowed keys present in the body, with the body's values |
| TransactionController.ApplyPayloadFacts | Budget-tracker/backend/controllers/transactionController.js:191 | amount, merchant and type take the payload's value when their key is present and keep theirs otherwise, id and owner never change, and applying the payload twice is applying it once |
| TransactionController.UpdateOwned | Budget-tracker/backend/controllers/transactionController.js:191 | only the caller's row with that id is rewritten; every other row stays |
| TransactionController.UpdateTransaction | Budget-tracker/backend/controllers/transactionController.js:173-210 | an unusable id or an empty payload gives 400 and no change; an id outside the `integer` range gives 500 and no change; otherwise the owned row takes the payload, and the status is 200, 404 or 403 as for delete |
| TransactionController.FirstInvalidKey | Budget-tracker/backend/controllers/transactionController.js:126-133 | the reported key is a key of some row that is not an allowed column; none is reported exactly when every key is allowed |
| TransactionController.FirstInvalidInRow | Budget-tracker/backend/controllers/transactionController.js:128-131 | the same check within one row |
| TransactionController.OrNull | Budget-tracker/backend/controllers/transactionController.js:147-152 | `x \|\| null` keeps a truthy cell and stores NULL for any falsy one |
| TransactionController.ImportedRows | Budget-tracker/backend/controllers/transactionController.js:143-155 | one stored row per CSV row, in order, with consecutive ids |
| TransactionController.ImportTransactions | Budget-tracker/backend/controllers/transactionController.js:107-165 | missing or empty rows, or a non-allowed key (named in the outcome), give 400 and no insert; an insert failure rolls every insert back; otherwise every row is stored and `inserted` equals the row count |
| TransactionController.InsertRows | Budget-tracker/backend/controllers/transactionController.js:135-165 | the insert loop leaves the table unchanged when an insert fails, and otherwise appends exactly the imported rows |
| TransactionController.AppendImported | Budget-tracker/backend/controllers/transactionController.js:145-154 | one iteration stores the next row under the next id |
| TransactionController.ImportTypeIsTransactionType | Budget-tracker/backend/controllers/transactionController.js:116-148 | after validation no row has a `type` key, so an imported row's type is its `transaction_type` or NULL |
| CurrencyRoutes.ClearDefaults | Budget-tracker/backend/routes/currencieRoute.js:68-70 | clearing keeps every code and changes only the default flags, all to false |
| CurrencyRoutes.IsNaNNumber | Budget-tracker/backend/routes/currencieRoute.js:56-58 | `Number.isNaN(Number(rate))` holds exactly for a text rate outside the numeric-literal grammar |
| CurrencyRoutes.PostRows | Budget-tracker/backend/routes/currencieRoute.js:63-125 | the codes after a POST are the old ones plus the requested one; an insert or a forced update stores the requested row; an unforced POST of an existing code keeps its row, losing only the default flag when the request is a default one |
| CurrencyRoutes.CurrencyTable.Post | Budget-tracker/backend/routes/currencieRoute.js:46-136 | a missing code or name, a null rate or a NaN rate gives 400 and no change; otherwise the trimmed, upper-cased code is inserted (201), replaced with `force` (200) or left (200), after clearing defaults when `is_default` is set |
| CurrencyRoutes.CurrencyTable.Upsert | Budget-tracker/backend/routes/currencieRoute.js:63-125 | the table becomes `PostRows` with outcome Inserted, Replaced or AlreadyExists, keeping at most one default |
| CurrencyRoutes.CurrencyTable.SetDefault | Budget-tracker/backend/routes/currencieRoute.js:139-179 | a missing code gives 400, a non-string one 500, an unknown one 404; each leaves the table unchanged; otherwise exactly the requested code becomes the default |
| CurrencyRoutes.CurrencyTable.Delete | Budget-tracker/backend/routes/currencieRoute.js:182-197 | the upper-cased code is removed when present (200); otherwise the table is unchanged (404) |
| CurrencyRoutes.ClearedKeepsAtMostOne | Budget-tracker/backend/routes/currencieRoute.js:68-82 | clearing leaves no default, and keeps "at most one default" |
| CurrencyRoutes.PostKeepsAtMostOneDefault | Budget-tracker/backend/routes/currencieRoute.js:67-125 | every POST outcome keeps at most one default |
| CurrencyRoutes.PostDefaultIsOnlyDefault | Budget-tracker/backend/routes/currencieRoute.js:68-125 | a default POST that inserts or forces leaves its code as the only default |
| CurrencyRoutes.ExistingDefaultPostLeavesNoDefault | Budget-tracker/backend/routes/currencieRoute.js:68-82 | a default POST for an existing code without `force` clears every default and sets none |
| CurrencyRoutes.PostTouchesOnlyItsCode | Budget-tracker/backend/routes/currencieRoute.js:68-96 | other codes keep their rows, apart from losing the default flag when the request is a default one |
| CurrencyRoutes.MakeDefaultIsOnlyDefault | Budget-tracker/backend/routes/currencieRoute.js:149-160 | after PUT the requested code is the only default, and all codes, names and rates are kept |
| CurrencyRoutes.CodeKeyIsUpper | Budget-tracker/backend/routes/currencieRoute.js:55 | the stored code is already upper case, so DELETE's and PUT's `toUpperCase` reach it |
| AuthMiddleware.ExtractToken | Budget-tracker/backend/middlewares/authMiddleware.js:15-30 | the token is the Bearer field when truthy, else the cookie's when truthy, else the query's; it is truthy exactly when one source is |
| AuthMiddleware.Coalesce | Budget-tracker/backend/middlewares/authMiddleware.js:43 | `a ?? b` is nullish exactly when both are |
| AuthMiddleware.NormalisedUserId | Budget-tracker/backend/middlewares/authMiddleware.js:43 | the id is null exactly when `user_id`, `id`, `userId` and `sub` are all nullish; otherwise it is one of them, and `user_id` whenever that is set |
| AuthMiddleware.NormalisedUser | Budget-tracker/backend/middlewares/authMiddleware.js:46-50 | `req.user` keeps every decoded field, adds `id` and `user_id`, and each keeps its decoded value unless nullish, when it becomes the normalised id |
| AuthMiddleware.VerifyToken | Budget-tracker/backend/middlewares/authMiddleware.js:12-63 | no token gives 401, a failed verification 403, otherwise `next` with the normalised user and `req.userId = req.user.user_id` |
| AuthMiddleware.SubjectOnlyPayload | Budget-tracker/backend/middlewares/authMiddleware.js:43-50 | a payload with only `sub` gets both `id` and `user_id` from it |
| AuthMiddleware.BearerHeaderRoundTrip | Budget-tracker/backend/middlewares/authMiddleware.js:18-19 | `"Bearer " + t` yields `t` for a token without spaces |
| ServerAuth.CorsAllowsExactly | Budget-tracker/backend/server.js:27-39 | over every origin, a request passes exactly when its origin is missing or falsy, or is one of the two listed sites |
| ServerAuth.CorsExamples | Budget-tracker/backend/server.js:27-39 | no origin and the listed frontend are allowed; a trailing slash or another site is refused |
| ServerAuth.PasswordPatternIsPolicy | Budget-tracker/backend/server.js:139-141 | the regular expression accepts exactly 6 to 50 characters without line terminators, with a lower-case letter, an upper-case letter, a digit and a listed special character |
| ServerAuth.PasswordExamples | Budget-tracker/backend/server.js:139-145 | "Abcde1!" passes; a too-short password or one without an upper-case letter fails |
| ServerAuth.FirstWhere | Budget-tracker/backend/server.js:148-154 | `rows[0]` is the first matching row in table order, and none exactly when no row matches |
| ServerAuth.UserTable.Insert | Budget-tracker/backend/server.js:161-164 | the insert appends one user with the next id |
| ServerAuth.UserTable.SignUp | Budget-tracker/backend/server.js:132-171 | missing fields give 400 before the password check; a weak password 400; a match by email or username gives "Email already registered" when the first match's email equals the request's, else "Username already taken"; otherwise one user is inserted and the response omits the hash |
| ServerAuth.UserTable.SignIn | Budget-tracker/backend/server.js:179-207 | missing fields, no such user, a null or Google hash (before any compare) and a failed compare each give 400 in that order; otherwise the first match signs in without its hash |
| ServerAuth.UserTable.GoogleLogin | Budget-tracker/backend/server.js:235-273 | no email is an error; an existing email reuses the first such user; a new one is inserted with the hash "google_oauth" and the display name or "GoogleUser" |
| ServerAuth.PublicUserHidesHash | Budget-tracker/backend/server.js:166-171 | the returned user never contains `password_hash` |
| ServerAuth.TokenIdentifiesUser | Budget-tracker/backend/server.js:66-71 | the signed payload `{id, email}` normalises, in the middleware, to the user's id in both `id` and `user_id` |
| DbConfig.Masked | Budget-tracker/backend/config/db.js:35-39 | missing or empty gives "(missing)"; up to 4 characters are shown as they are; longer values give 8 characters showing only the first two and the last two |
| DbConfig.MaskedHidesMiddle | Budget-tracker/backend/config/db.js:38 | two long values with the same first two and last two characters mask alike |
| DbConfig.SelectPoolConfig | Budget-tracker/backend/config/db.js:52-80 | `DATABASE_URL` wins; otherwise individual mode needs host, user and name, with port 5432, password "" and SSL exactly for "true" by default; otherwise there is no configuration |
| DbConfig.PortFromEnv | Budget-tracker/backend/config/db.js:69 | the decimal text of a port number becomes that port number |
| TransactionPage.Income | Budget-tracker/frontend/src/pages/TransactionPage.jsx:150-153 | the income total is 0 without income rows and never negative when no amount is |
| TransactionPage.Expense | Budget-tracker/frontend/src/pages/TransactionPage.jsx:160-163 | the expense total is 0 without expense rows and never negative when no amount is |
| TransactionPage.Balance | Budget-tracker/frontend/src/pages/TransactionPage.jsx:140-143 | when every row is income, the balance is the income total |
| TransactionPage.CategoryName | Budget-tracker/frontend/src/pages/TransactionPage.jsx:38-41 | the name shown is "Unknown" or the name of one of the listed categories; the id goes through the radix-less `parseInt`, so "0x5" names category 5 (`TransactionPage.HexCategoryName`) |
| TransactionPage.FilteredIsOneFilter | Budget-tracker/frontend/src/pages/TransactionPage.jsx:102-105 | the chain throws a TypeError exactly when a type filter meets a type that is not a string or a row passing type and category has a merchant that is not a string (a NULL cell); otherwise it is one filter by the conjunction and lists exactly the rows meeting type, category and merchant, in order |
| TransactionPage.NoFilterListsAll | Budget-tracker/frontend/src/pages/TransactionPage.jsx:102-105 | "all", "all" and an empty query list every row, unless some merchant is not a string, when the page throws |
| TransactionPage.UpperCaseKindMatchesNothing | Budget-tracker/frontend/src/pages/TransactionPage.jsx:103 | the type filter "Income" lists no row at all, since each row's type is lower-cased before the comparison; a type that is not a string makes it throw |
| TransactionPage.UnparsedCategoryHidden | Budget-tracker/frontend/src/pages/TransactionPage.jsx:104 | with a category filter, a row whose category does not parse is hidden (`NaN === NaN` is false) |
| TransactionPage.BalanceIsIncomeMinusRest | Budget-tracker/frontend/src/pages/TransactionPage.jsx:140-153 | the balance is income minus every non-income amount |
| TransactionPage.RestIsExpense | Budget-tracker/frontend/src/pages/TransactionPage.jsx:156-163 | when every type is income or expense, the non-income amounts are the expense total |
| TransactionPage.BalanceIsIncomeMinusExpense | Budget-tracker/frontend/src/pages/TransactionPage.jsx:140-163 | then the balance is income minus expense |
| TransactionPage.OtherTypeSkewsBalance | Budget-tracker/frontend/src/pages/TransactionPage.jsx:140-163 | a row typed "Expense" lowers the balance but counts in neither total |
| TransactionPage.FindCategory | Budget-tracker/frontend/src/pages/TransactionPage.jsx:39 | `find` returns the first category whose id equals the parsed id, and none exactly when none does |
| TransactionPage.CategoryOfParsedId | Budget-tracker/frontend/src/pages/TransactionPage.jsx:27-41 | an id that the radix-less `parseInt` reads as 1-8 names that table entry; any other number gives "Unknown" |
| TransactionPage.ParsedNameOfId | Budget-tracker/frontend/src/pages/TransactionPage.jsx:27-41 | the same, for the parsed number |
| TransactionPage.CategoryNameOfId | Budget-tracker/frontend/src/pages/TransactionPage.jsx:27-41 | a numeric or decimal-text id 1-8 names its category; other numbers are "Unknown" |
| TransactionPage.CategoryNameOfNaN | Budget-tracker/frontend/src/pages/TransactionPage.jsx:38-41 | an id that does not parse is "Unknown" |
| TransactionPage.HexCategoryName | Budget-tracker/frontend/src/pages/TransactionPage.jsx:38-41 | the id text "0x5" names "Bills & Utilities", since `parseInt` without a radix reads hexadecimal |
| TransactionPage.HexCategoryListed | Budget-tracker/frontend/src/pages/TransactionPage.jsx:104 | a row whose category id is the text "0x5" is kept by category filter "5" |
| TransactionPage.KindStage | Budget-tracker/frontend/src/pages/TransactionPage.jsx:103 | when the type callback throws on no row, every type is a string (once a type is selected) and the call is the filter by the lower-cased type |
| TransactionPage.MerchantStage | Budget-tracker/frontend/src/pages/TransactionPage.jsx:105 | the search callback throws exactly when a remaining merchant is not a string, and otherwise is the filter by `includes` on the lower-cased text |
| JsText.ParseIntAutoCases | Budget-tracker/frontend/src/pages/TransactionPage.jsx:39 | `parseInt` with no radix reads as `parseInt(..., 10)` unless a `0x`/`0X` follows the sign, when it reads the hexadecimal digits after it (NaN if there are none) and applies the sign |
| JsText.ParseIntAutoOfString | Budget-tracker/frontend/src/pages/TransactionPage.jsx:39 | `parseInt(String(n))` is `n` |
| JsText.SignedDigitsNotHex | Budget-tracker/frontend/src/pages/TransactionPage.jsx:104 | a signed run of decimal digits is read the same with and without radix 10 |
| JsText.HexDigitsValue | Budget-tracker/frontend/src/pages/TransactionPage.jsx:104 | a sign, `0x` and hexadecimal digits give the digits' value with the sign applied |
| JsText.HexParseIntAuto | Budget-tracker/frontend/src/pages/TransactionPage.jsx:39 | `parseInt("0x5")` is 5 |
| JsText.DecimalStopsAtX | Budget-tracker/backend/controllers/transactionController.js:76 | `parseInt("0x5", 10)` is 0: radix 10 stops at the `x` |
| SeqUtil.TryFilter | Budget-tracker/frontend/src/pages/TransactionPage.jsx:102-105 | `filter` with a callback that can throw throws exactly when the callback throws on some element |
| SeqUtil.TryFilterIsFilter | Budget-tracker/frontend/src/pages/TransactionPage.jsx:102-105 | a callback that throws on no element makes it the ordinary filter |
| Sidebar.FilteredMenus | Budget-tracker/frontend/src/components/Sidebar.jsx:79-84 | every group is kept with its id and name; its items are exactly those shown by the query |
| Sidebar.AdminPanelIffAdmin | Budget-tracker/frontend/src/components/Sidebar.jsx:23-62 | the admin entry is in the menu exactly for the role "admin", and it is the only item leading to `/admin` |
| Sidebar.ReportItemsAdmin | Budget-tracker/frontend/src/components/Sidebar.jsx:46-50 | the report group holds the admin entry exactly for "admin" |
| Sidebar.BlankQueryKeepsMenu | Budget-tracker/frontend/src/components/Sidebar.jsx:81-82 | a query blank after trimming leaves the menu unchanged |
| Sidebar.LeadingSpaceHidesBudgets | Budget-tracker/frontend/src/components/Sidebar.jsx:82 | the untrimmed query " budgets" hides the Budgets entry |
| SignUpForm.ValidateForm | Budget-tracker/frontend/src/pages/SignUp.jsx:23-31 | each field has an error exactly when it is blank after trimming, or, for the password, when its untrimmed length is below 6, with the source's messages |
| SignUpForm.SubmitsIff | Budget-tracker/frontend/src/pages/SignUp.jsx:37-39 | the form submits exactly when no field is blank and the password has at least 6 characters |
| SignUpForm.ServerStrongPassesClient | Budget-tracker/frontend/src/pages/SignUp.jsx:27-29 | a password the server accepts never gets a client error |
| SignUpForm.ClientWeakerThanServer | Budget-tracker/frontend/src/pages/SignUp.jsx:27-29 | "abcdef" passes the form but not the server's pattern |
| SignUpForm.HandleChange | Budget-tracker/frontend/src/pages/SignUp.jsx:14-20 | the edited field takes the value and its error becomes ""; other values and errors are unchanged |
| SignUpForm.EditThenSubmit | Budget-tracker/frontend/src/pages/SignUp.jsx:14-39 | a blanked error entry stays in the map but does not block the submit, which validates afresh |
| CivilDates.ToCivil | Budget-tracker/backend/utils/budgetNotifications.js:79 | every day number has a valid civil date |
| CivilDates.ToCivilRoundTrip | Budget-tracker/backend/utils/budgetNotifications.js:79-82 | rebuilding a day from its year, month and date gives the day back |
| CivilDates.CivilOfMakeDay | Budget-tracker/backend/utils/budgetNotifications.js:61-62 | a valid civil date survives MakeDay and back |
| CivilDates.MakeDayNormalise | Budget-tracker/backend/utils/budgetNotifications.js:81-85 | a month number outside 0-11 carries into the year, and any date, in range or not, is the month's first day plus `date - 1` days |
| CivilDates.SetDateMoves | Budget-tracker/backend/utils/budgetNotifications.js:71-81 | `setDate(d)` moves a day by `d - getDate()` days |
| CivilDates.MonthAhead | Budget-tracker/backend/utils/budgetNotifications.js:85 | `setMonth(getMonth() + 1)` moves a date ahead by exactly its month's length |
| CivilDates.MondayBefore | Budget-tracker/backend/utils/budgetNotifications.js:68-69 | moving back `(weekday + 6) % 7` days lands on a Monday |
| CivilDates.YearFromDay | Budget-tracker/backend/utils/budgetNotifications.js:79 | the year of a day is the one whose first day is at or before it and whose successor's is after it |
| CivilDates.YearFromDayUnique | Budget-tracker/backend/utils/budgetNotifications.js:79 | only one year's span holds a given day, so the computed year is that year |
| CivilDates.DateParts | Budget-tracker/backend/utils/budgetNotifications.js:79-81 | every day is a valid civil date, equal to its month's first day plus `getDate() - 1` |
| CivilDates.WeekDay | Budget-tracker/backend/utils/budgetNotifications.js:68 | `getDay()` is between 0 and 6, with 1970-01-01 a Thursday |
| CivilDates.NextMonthStart | Budget-tracker/backend/utils/budgetNotifications.js:61 | `Date.UTC(y, m, 1)` comes one month length after `Date.UTC(y, m - 1, 1)`, for any month number, carrying into the year |
| CivilDates.NextMonthDay | Budget-tracker/backend/utils/budgetNotifications.js:85 | day `d` of the next month is the month's first day plus its length plus `d - 1` |
| CivilDates.PrevMonth | Budget-tracker/backend/utils/budgetNotifications.js:82 | the month before is a month number from 0 to 11, wrapping January to December |
| CivilDates.PrevMonthDay | Budget-tracker/backend/utils/budgetNotifications.js:82 | day `d` of month `m - 1` is the first of month `m` minus the previous month's length plus `d - 1`, in the previous year when `m` is January |
| CivilDates.MonthBack | Budget-tracker/backend/utils/budgetNotifications.js:82 | `setMonth(getMonth() - 1)` moves a date back by the previous month's length |
| CivilDates.MonthBackDate | Budget-tracker/backend/utils/budgetNotifications.js:82 | when the date exists in the previous month, `setMonth(getMonth() - 1)` keeps the date and moves to that month |
| JsText.ToLower | Budget-tracker/frontend/src/pages/TransactionPage.jsx:103 | `toLowerCase` maps each ASCII upper-case letter to lower case and leaves every other character as it is |
| JsText.ToUpper | Budget-tracker/backend/routes/currencieRoute.js:55 | `toUpperCase` maps each ASCII lower-case letter to upper case and leaves every other character as it is |
| JsText.Trim | Budget-tracker/frontend/src/pages/SignUp.jsx:25-27 | `trim()` removes whitespace from both ends only: the result starts and ends with a non-whitespace character, and what was cut is whitespace |
| JsText.ParseIntOfSignedInteger | Budget-tracker/backend/controllers/transactionController.js:76 | `parseInt` of the text of a signed integer is that integer |
| JsText.Split | Budget-tracker/backend/middlewares/authMiddleware.js:19 | `split` yields at least one part and no part contains the separator |
| JsText.StringToInt | Budget-tracker/backend/utils/budgetNotifications.js:25 | an integer value comes only from text whose `Number` is finite, and blank text gives 0 |
| JsText.SignedIntegerNumber | Budget-tracker/backend/utils/budgetNotifications.js:25 | the text of a finite signed integer has that integer as its `Number` |
| JsText.NumberOfString | Budget-tracker/backend/utils/budgetNotifications.js:25 | `Number` of the decimal text of a safe integer is that integer, exactly |
| JsText.LargeExponentOverflows | Budget-tracker/backend/controllers/transactionController.js:76 | a decimal literal with an exponent of 309 or more is Infinity |
| JsText.LongDigitRunOverflows | Budget-tracker/backend/controllers/transactionController.js:76 | a run of more than 309 digits without a leading zero is Infinity |
| JsText.ExponentExample | Budget-tracker/backend/config/db.js:69 | `Number("1e3")` is 1000 |
| JsText.OverflowExample | Budget-tracker/backend/controllers/transactionController.js:76 | `Number("1e400")` is Infinity |
| JsText.HexExample | Budget-tracker/backend/config/db.js:69 | `Number("0x10")` is 16 |
| JsText.WholeFractionExample | Budget-tracker/backend/config/db.js:69 | `Number("5432.0")` is 5432 |
| JsText.HalfIsNotInteger | Budget-tracker/backend/config/db.js:69 | `Number` of any whole number followed by ".5", such as "1.5", is not an integer, whether it stays finite or overflows |
| JsText.InfinityExample | Budget-tracker/backend/controllers/transactionController.js:76 | `Number("-Infinity")` is negative Infinity |
| JsText.LettersExample | Budget-tracker/backend/routes/currencieRoute.js:56-58 | `Number("abc")` is NaN |
| JsText.EmptyRadixExample | Budget-tracker/backend/routes/currencieRoute.js:56-58 | `Number("0x")` is NaN: a radix prefix needs digits |
| TransactionPage.CategoryIdsArePositions | Budget-tracker/frontend/src/pages/TransactionPage.jsx:27-36 | the table has eight categories and category `k` sits at position `k - 1` |
| Sidebar.OtherGroupsLackAdmin | Budget-tracker/frontend/src/components/Sidebar.jsx:23-62 | the menu has four groups, the third is the report group, and no item of the other groups leads to `/admin` |
| BudgetRoutes.OptionalNumber | Budget-tracker/backend/routes/budgetRoutes.js:53-66 | the created notice's amount is NULL exactly when the request has none, and the number otherwise |
| JsText.TrimEmptyIffBlank | Budget-tracker/frontend/src/pages/SignUp.jsx:25-27 | a string is empty after `trim()` exactly when it is all whitespace |
| JsText.ToUpperIdempotent | Budget-tracker/backend/routes/currencieRoute.js:55 | upper-casing twice is upper-casing once |
| JsText.ContainsEmpty | Budget-tracker/frontend/src/pages/TransactionPage.jsx:105 | every string includes the empty query |
| JsText.SplitJoin | Budget-tracker/backend/middlewares/authMiddleware.js:19 | joining the split parts with the separator rebuilds the string |
| JsText.ParseIntOfString | Budget-tracker/backend/controllers/transactionController.js:76 | `parseInt(String(n), 10)` is `n` |
| JsText.StringToIntOfString | Budget-tracker/backend/utils/budgetNotifications.js:25 | `Number` of the decimal text of a safe integer is that integer |
| SeqUtil.Filter | Budget-tracker/frontend/src/pages/TransactionPage.jsx:102-105 | `filter` keeps exactly the elements meeting the predicate and is no longer than its input |
| SeqUtil.FilterFusion | Budget-tracker/frontend/src/pages/TransactionPage.jsx:102-105 | two filters in a row are one filter by both conditions |
| SeqUtil.FilterKeepsAll | Budget-tracker/frontend/src/components/Sidebar.jsx:81-82 | a filter every element meets returns the sequence unchanged |
| SeqUtil.FilterAppend | Budget-tracker/frontend/src/pages/TransactionPage.jsx:102-105 | filtering preserves order: what it keeps from a prefix precedes what it keeps from the rest |
| Store.Or | Budget-tracker/backend/controllers/transactionController.js:24 | `a \|\| b` is `a` when `a` is truthy, and truthy exactly when either is |

## Left out

- SQL text, the `pg` pool, Express routing, logging and response bodies beyond the status and outcome are not modelled. Each query is the table operation it performs.
- `jwt.verify` is the function parameter `verify`, and `jwt.sign` is represented by its payload (`TokenPayload`). bcrypt's hash is the parameter `hashed`, and its compare is the parameter `compare`. Cookies and redirects are not modelled.
- The clock is the parameter `now`. Time zones are not modelled: every `Date` is UTC, including the server-local `setDate`/`setHours` calls.
- Milliseconds are not modelled. "next start minus 1 ms" is the previous day, and the `toISOString().slice(0, 10)` string comparisons are day comparisons.
- Floating point and `parseFloat` are not modelled. Amounts are integers in minor units. `toLocaleString` and the message text are kept as structured message values (`ExceededMsg`, `CreatedMsg`, `TransactionMsg`). The transaction notice's title is not built from the merchant.
- Month strings are not parsed. A month is a `YearMonth`, as read after `split("-").map(Number)`. Ordering by `month DESC` compares year and then month, which agrees with text order for four-digit years only.
- Concurrency is not modelled: two evaluations racing past the threshold, and transactions interleaving with them.
- Database sequences are not modelled on a rollback. An import that rolls back keeps the advanced id counter, as PostgreSQL sequences do, and nothing else depends on it.
- `hasColumn` and the timestamp columns of the currency routes are left out, because they only decide whether `created_at`/`updated_at` are written.
- `ON CONFLICT DO NOTHING` after the existence check is left out. The same transaction has just seen that the code is absent, so the conflict branch needs a concurrent writer.
- `process.exit`, the connection probe and the environment logging of `db.js` are left out. A missing configuration is `None`.
- `DbConfig.SelectPoolConfig`: a `DB_PORT` whose `Number` is NaN, infinite or fractional gives `None`, where `pg` would receive that value as the port. Whole-number forms such as "5432.0", "5e3" and "0x1538" are ports.
- JsText.StringToNumber: numbers are exact rationals. Rounding to the nearest double is modelled only where it yields an infinity (overflow). Precision loss beyond 2^53 and underflow to zero are not modelled, so the lemmas about integer text require the safe-integer range.
- JsText.ToLower: only ASCII letters are mapped. JavaScript maps every Unicode letter, and some mappings change the length ("ß" upper-cases to "SS"). A merchant "CAFÉ" searched with "é" is listed by the browser but not by the model.
- JsText.ToUpper: the same ASCII-only mapping as `ToLower`.
- ServerAuth.PasswordPatternIsPolicy: strings are sequences of code points, while JavaScript's `.{6,50}` counts UTF-16 code units. A password of characters outside the Basic Multilingual Plane is shorter here than in the source.
- SignUpForm.ValidateForm: `password.length` counts code points here and UTF-16 code units in the source, as for the server's pattern.
- BudgetNotifications.EffectiveAmount: a budget's amount is read as a JavaScript number. Were the column `NUMERIC`, `pg` would return text, a zero budget ("0.00") would be truthy and skipped rather than fall back to the expense, and the comparisons would be on text converted by `Number`.
- BudgetRoutes.DeleteBudget: the `budget_id` column is taken to be `integer`. The cast accepts spaces, a sign and decimal digits; the hexadecimal and underscore forms that newer PostgreSQL versions accept are not modelled.
- BudgetRoutes.CreateBudget: the body's values arrive typed. PostgreSQL's casts of text cells (a numeric string amount, a text month) are not modelled.
- TransactionController.AddTransaction: the body's values arrive typed as the columns store them. A text amount or category is stored as `Str`, and `BudgetNotifications.Spent` never counts a `Str` amount, where PostgreSQL would have cast it. A text `transaction_date` stays `Str` too: the row is never counted in a period sum, where `transaction_date::date` would count it, and as the evaluator's context it makes the reference day today (`BudgetNotifications.RefDay`), where `new Date(...)` would parse it.
- TransactionController.AddTransaction: the insert is taken not to fail. The outer `catch` that answers 500 when it does is not modelled, so the method always answers 201 once the required fields are present.
- BudgetRoutes.CreateBudget: the duplicate check and the insert are taken not to fail. The outer `catch` that answers 500 is not modelled.
- TransactionController.DeleteTransaction: the `transaction_id` column is taken to be `integer`. Apart from an id outside its range, the delete and existence queries are taken not to fail.
- TransactionController.UpdateTransaction: as for delete, only the out-of-range id reaches the outer `catch`.
- TransactionController.ImportTransactions: CSV cells are stored as given. A text amount stays `Str`, so the period sum does not count it, where PostgreSQL would cast it to a number. A text `transaction_date`, as every CSV row has, stays `Str` as well, so an imported row is never in any period sum, where `transaction_date::date` would count it.
- BudgetNotifications.CategoryParam: text whose `Number` is fractional or infinite gives NULL here, so only budgets without a category are candidates. The source passes that number to the candidate query instead. If the column is `integer`, PostgreSQL cannot cast it, the query fails and the call adds nothing.
- React rendering, hooks, icons, `localStorage` and HTTP wrappers are not modelled.
- The raw `/transactions` and `/categories` routes of `server.js` are left out, because they pass straight through to SQL. So are the other route files and `transactionModel.js`, whose signature does not match the controller's calls. Delete and update are modelled as the owner-filtered write that the controller expects.
- `TransactionController.UpdateTransaction`: the update's SQL lives in `transactionModel.js`, which is not part of this model. The write is taken to be `SET` of the payload's columns on the caller's row with that id.
- `CurrencyRoutes.CurrencyTable.Post`: `Number(rate)` of a non-string value is taken to be a number. Only a string rate can be NaN. A hexadecimal or exponent rate is accepted without its value being computed.
- `Sidebar.FilteredMenus`: its own contract states membership. Order is stated by `SeqUtil.FilterAppend` on the `Filter` it calls.
- `BudgetProperties.AnchoredWindowContainsRef`: holds for anchors 1 to 28 only. For larger anchors, `BudgetProperties.LargeAnchorMissesRef` shows the window missing the reference date.
