# Expense tracker ledger core, in Dafny

This project models the core of a small expense tracker: the per-user ledger
behind `/expenses`, the bearer-token gate that guards every ledger route, and
the summary the web client folds over the fetched records. The database,
HTTP, the JWT library, and the browser are replaced by pure functions over
immutable values. Then ownership isolation, filter correctness,
delete idempotence, and the aggregation identities are proved.

Modules:

- `Common` (`common.dfy`): `Option`, `Result`, order-preserving `Filter`, `RemoveFirst`, and their lemmas.
- `ExpenseModel` (`expense_model.dfy`): the record of `Backend/models/Expense.js` and the store. The store holds the records in insertion order plus the next id to assign. `Valid` means ids are unique and below that next id.
- `Expenses` (`expenses.dfy`): the POST, GET and DELETE handlers of `Backend/routes/expenses.js`.
- `Auth` (`auth.dfy`): the middleware of `Backend/middleware/auth.js`. This covers JavaScript's `split(" ")`, token extraction, and the 401/403/proceed decision. The verifier is a function parameter `string -> Result<UserId, VerifyError>`.
- `Api` (`api.dfy`): every route composed behind the gate, and `Run`, which serves a whole history of requests.
- `App` (`app.dfy`): the `summary` reduce and the `addExpense` guard of `Frontend/src/App.jsx`.

Modelling choices:

- The store assigns ids from a counter, which stands in for Mongo's fresh `ObjectId`s. The empty store, `EmptyStore`, is where every history starts.
- `Expense.find` is modelled as an order-preserving filter over the store sequence.
- `deleteOne` is modelled as "remove the first match". Under `Valid`, this is proved to remove every match.
- Query parameters are taken after parsing. `category: None` stands for an absent parameter. `Some("")` stands for the empty, falsy string. A date bound is `None` when it is absent or empty.
- "The verifier is never called" is stated as "the outcome is the same for every verifier". Over a history, each request carries the verifier as it stood when the request arrived, because expiry depends on the clock.
- The summary's month-of-year function is a parameter. So are the clock reading `now` and the record dates, as integer milliseconds.

Behaviours of the code a reader might not expect:

- The gate does not check the `Bearer` scheme word. Any first word is accepted (`Auth.SchemeTokenHeaderYieldsToken`).
- The week window has no upper bound. A future-dated record counts towards "this week" (`App.WeekTotal`).
- The month total compares only the month of year, never the year (`App.MonthTotalIgnoresYear`).
- A record with a missing amount is not read as 0. The week and month totals it reaches become `NaN` and stay `NaN`, because their `+=` has no guard. Its category total becomes `NaN` too. But `NaN || 0` is 0, so the next record of that category restarts the total from its own amount, and every earlier amount of that category is lost. A category total stays `NaN` only when no later record of that category follows. A record with a missing category is not dropped: its amount is totalled under the key `"undefined"`. The model has every field present.
- Categories with no records are absent from the category map. But a category can be present with a zero total, because the client's check is on text and lets an amount of "0" through (`App.ZeroAmountIsSent`). With positive amounts every total is positive (`App.PositiveAmountsGivePositiveTotals`).

## Model

| member | source | states |
|---|---|---|
| `Expenses.Create` | Backend/routes/expenses.js:7-11 | The new record's owner is the caller, and its fields come from the body. It is appended after the existing records, which are unchanged. On a valid store its id differs from every existing id, and validity is kept. |
| `Expenses.CreateIgnoresBodyOwner` | Backend/routes/expenses.js:8 | A `userId` in the body has no effect on what is stored, because the caller's identity overrides it. |
| `Expenses.BuildFilter` | Backend/routes/expenses.js:14-19 | The filter always names the caller as owner. It names the category exactly when the parameter is truthy, and then that category. It names a date range exactly when both bounds are given, and then the inclusive range from start to end. What the store returns for it is stated by `Expenses.Query`. |
| `Expenses.Query` | Backend/routes/expenses.js:13-22 | Every returned record is stored and owned by the caller. It matches the category when one is truthy, and lies within the inclusive date range when both bounds are given. Every stored record meeting those conditions is returned. On a valid store, no record is returned twice. |
| `Expenses.QueryWithoutFilterIsOwnLedger` | Backend/routes/expenses.js:15-20 | With no truthy category and no complete range, each of the caller's records comes back exactly as often as it is stored. Nothing else comes back. |
| `Expenses.OneBoundIsIgnored` | Backend/routes/expenses.js:17-19 | With only one date bound, the answer is the same as with none. |
| `Expenses.EmptyCategoryIsIgnored` | Backend/routes/expenses.js:16 | An empty category gives the same answer as no category. |
| `Expenses.QueryAfterCreate` | Backend/routes/expenses.js:7-22 | After an insert, any query returns its previous answer, in the same order, followed by the new record if it qualifies. |
| `Expenses.CreateIsInvisibleToOthers` | Backend/routes/expenses.js:7-22 | A record created by one user never appears in another user's query, under any filter. The other user's answer is unchanged. |
| `Expenses.Delete` | Backend/routes/expenses.js:24-27 | Only a record with the given id and the caller as owner can go, and at most one record goes. Every other record stays. On a valid store, validity is kept and no matching record remains. |
| `Expenses.DeleteRemovesTarget` | Backend/routes/expenses.js:25 | With unique ids, removing the first matching record leaves no match, and ids stay unique. |
| `Expenses.DeleteIsInvisibleToOthers` | Backend/routes/expenses.js:25 | Whatever one user deletes, another user's query answers are unchanged. |
| `Expenses.DeleteIsIdempotent` | Backend/routes/expenses.js:25 | On a valid store, deleting twice gives the same store as deleting once. |
| `Expenses.DeleteWithoutTargetIsNoop` | Backend/routes/expenses.js:25 | When no record has the given id and the caller as owner, because the id is unknown or the record is someone else's, the whole store is unchanged. |
| `Expenses.DeleteOfForeignRecordIsNoop` | Backend/routes/expenses.js:25 | Asking to delete a record that another user owns leaves the whole store unchanged. |
| `Expenses.DeleteOfOwnRecordRemovesIt` | Backend/routes/expenses.js:25 | Deleting one's own record removes exactly that record and keeps all others. |
| `Auth.SplitOn` | Backend/middleware/auth.js:3 | Splitting on a character gives at least one piece, and no piece contains the separator. |
| `Auth.JoinSplit` | Backend/middleware/auth.js:3 | Joining the pieces of a split with the separator gives back the original header. |
| `Auth.SplitJoin` | Backend/middleware/auth.js:3 | Splitting a join of separator-free pieces gives back the pieces. |
| `Auth.ExtractToken` | Backend/middleware/auth.js:3-7 | An extracted token is non-empty, contains no space, and exists only when a header was sent. |
| `Auth.Gate` | Backend/middleware/auth.js:2-18 | The outcome is 401 exactly when there is no token. It is 403 exactly when the verifier rejects the token. Otherwise it proceeds with the identity the verifier returned. |
| `Auth.NoTokenIgnoresVerifier` | Backend/middleware/auth.js:3-7 | Without a token the outcome is 401, whatever the verifier would say. |
| `Auth.VerificationErrorsLookAlike` | Backend/middleware/auth.js:9-13 | Any two verification errors, such as a forged token and an expired one, give the same gate outcome. |
| `Api.VerificationErrorsGetSameResponse` | Backend/middleware/auth.js:9-13 | Whatever the verification error, every request gets the same bare 403 response and the store is unchanged. |
| `Auth.SchemeTokenHeaderYieldsToken` | Backend/middleware/auth.js:3 | A `<word> <token>` header yields exactly that token, whatever the word is. |
| `Auth.HeaderWithoutSpaceHasNoToken` | Backend/middleware/auth.js:3-7 | A header with no space, including the empty header, yields no token. |
| `Auth.SchemeTokenRestYieldsToken` | Backend/middleware/auth.js:3 | A `<word> <token> <rest>` header yields exactly that token, whatever the word and whatever follows the token. |
| `Auth.TokenIsSecondPiece` | Backend/middleware/auth.js:3-7 | Conversely, an extracted token is the second space-separated piece: the header is a space-free first word, a space, the token, and then either nothing or a space and the remaining pieces. |
| `Auth.DoubleSpaceHasNoToken` | Backend/middleware/auth.js:3-7 | Two spaces after the scheme word leave an empty second piece, so there is no token. |
| `Api.Handle` | Backend/routes/expenses.js:7-27 | POST answers 201 with a record owned by the caller and appended to the store, exactly as `Expenses.Create` makes it. GET answers 200 with the query result and leaves the store alone. DELETE answers 204 whether or not a record went, and leaves the store as `Expenses.Delete` does for the caller. Other users' records always survive, and any added record is the caller's. |
| `Api.Serve` | Backend/middleware/auth.js:2-18 | The request gets 401 exactly when no token is present, and 403 exactly when verification fails. Either rejection leaves the store unchanged and sends no payload. A request that proceeds gets exactly what the handler produces for the bound identity. |
| `Api.OthersLedgerUnchanged` | Backend/routes/expenses.js:7-27 | A request handled for one user leaves every query answer of every other user unchanged. |
| `Api.LedgerIsolation` | Backend/routes/expenses.js:7-27 | Over any history in which no request authenticates as `b`, every query answer of `b` is unchanged. |
| `Api.RunKeepsValid` | Backend/routes/expenses.js:7-27 | Any history of requests keeps store ids unique and fresh. |
| `Api.HistoryFromEmptyIsValid` | Backend/routes/expenses.js:7-27 | Any history of requests served from the empty collection leaves store ids unique and fresh. |
| `App.Accumulate` | Frontend/src/App.jsx:112-121 | One record adds its amount to the week total exactly when it is dated less than 604800000 ms before `now`, and to the month total exactly when its month of year is `now`'s. Its category becomes a key, and that category's total becomes its previous total, or 0 when there was none, plus the amount. Every other category's total is unchanged. |
| `App.Summarize` | Frontend/src/App.jsx:111-123 | The reduce itself, a left fold of `App.Accumulate` from the empty summary. Its result is stated by `App.SummaryOfNothing`, `App.WeekTotal`, `App.MonthTotal`, `App.CategoryTotals` and `App.CategoryTotalsSumToTotal`. |
| `App.SummaryOfNothing` | Frontend/src/App.jsx:111-123 | The summary of no records has week 0, month 0 and an empty category map. |
| `App.WeekTotal` | Frontend/src/App.jsx:115-117 | The week total is the sum over exactly the records dated less than 604800000 ms before `now`, including future-dated ones. |
| `App.MonthTotal` | Frontend/src/App.jsx:116-118 | The month total is the sum over exactly the records whose month of year equals `now`'s. |
| `App.MonthTotalIgnoresYear` | Frontend/src/App.jsx:116-118 | A single record counts towards the month total exactly when its month of year is `now`'s, so a record from another year in the same month counts too. |
| `App.SummaryExample` | Frontend/src/App.jsx:111-123 | Take Food 100 from 75 days ago in another month, Food 50 from 14 days ago in the current month, and Transport 30 dated now. Their summary is week 30, month 80, and the map Food 150, Transport 30. |
| `App.CategoryTotals` | Frontend/src/App.jsx:119 | The category map's keys are exactly the categories that occur. Each key holds the sum of its category's amounts. |
| `App.CategoryTotalsSumToTotal` | Frontend/src/App.jsx:119 | The category totals add up to the total of all amounts. |
| `App.WeekAndMonthBounded` | Frontend/src/App.jsx:117-119 | With non-negative amounts, the week and month totals lie between 0 and the total of all amounts. |
| `App.PositiveAmountsGivePositiveTotals` | Frontend/src/App.jsx:119 | With positive amounts, no category total is zero. |
| `App.AddExpense` | Frontend/src/App.jsx:82-86 | No request is sent exactly when title, amount, category or date is empty. Otherwise the form is sent as typed. |
| `App.ZeroAmountIsSent` | Frontend/src/App.jsx:83-86 | An amount typed as "0" passes the check, because the check tests for empty text rather than for a zero value. |

## Left out

- `Backend/server.js`: Express, CORS, the Mongo connection and `listen` are wiring.
- Mongoose: model registration and the casting of body strings to `Number` and `Date` are left out. POST bodies are taken already cast, with all four schema fields present. A body missing a field, or carrying its own `_id`, is not modelled.
- Query strings: `new Date(...)` parsing of `startDate`/`endDate`, invalid dates, and repeated query parameters that arrive as arrays are left out. So are object-valued parameters: Express's query parser turns `?category[$ne]=Food` into `{ $ne: "Food" }`, which reaches the find as an operator. For such input the category-equality clause of `Expenses.Query` does not describe the code. Ownership isolation still holds there, because the owner condition is always part of the filter.
- External faults: `ObjectId` cast errors on malformed ids, and every storage failure, are not modelled.
- Concurrency: concurrent requests interleaving at the database are not modelled. Requests are served one after another.
- `jwt.verify`: the signature and expiry checks and `JWT_SECRET` are a foreign library, so the verifier is an arbitrary function. A token whose payload lacks `id` is not modelled.
- Login and registration: the token-issuing routes are not part of this model. Neither is the client's `login`/`register`/`logout` code (`Frontend/src/App.jsx:42-80`).
- Logging: `console.log` and `console.error` are left out.
- Client I/O and UI: axios calls, `localStorage`, `alert`, React state, the reset of the form and the refetch after an add, `deleteExpense`, the Pie chart, and `toFixed(2)` display are left out.
- Expenses.QueryAfterCreate: the route calls `find` without a sort, and Mongo promises no order for that. The insertion order this lemma states is a property of the model's store, not a guarantee of the database.
- App.WeekTotal: amounts are integers, not floating-point `Number`s, so rounding and `NaN` are not modelled.
- App.MonthTotalIgnoresYear: the year is not modelled at all, so this is stated as the one-record case of `App.MonthTotal`.
- App.MonthTotal: `getMonth` in the local time zone is a parameter function rather than a calendar computation. The clock is read once as `now`, not once per record as `new Date()` inside the callback does.
- App.CategoryTotals: the category map is a Dafny map, not a JavaScript object. Key quirks are not modelled: `__proto__`, and categories named after inherited `Object.prototype` properties such as `constructor` or `toString`. For those, `acc.byCategory[category]` starts out as a function, so `|| 0` keeps the function and `+` joins strings instead of adding numbers. The enumeration order of `Object.keys` is not modelled either.
