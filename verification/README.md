# Personal-finance server core, modelled in Dafny

This project models the logic of a personal-finance web app: an Express and
Mongoose server with Gemini-backed helpers, plus one React page. The model
covers the following parts, each as a pure function over immutable data:

- **Schemas**: transactions, users (including the e-mail pattern), alerts,
  monthly budget ledgers and the curated loan-link list. Each is a datatype,
  a validation function listing the failing paths, and a constructor that
  applies defaults and setters.
- **Transaction service**:
  - manual and SMS-driven creation;
  - the current month's expense summary;
  - the sixty-day history, sorted newest first.
- **Budget ledger update**: an upsert on (user, month, year), then an
  increment that keeps the category amounts summing to the total.
- **Alert service**: the unread-alert query and the ownership-checked
  mark-as-read.
- **User service**: registration against the unique indexes, and login with
  one uniform failure message and a four-field public projection.
- **`protect` middleware**: the token search order and the 401 decision chain.
- **Upload middleware**:
  - the destination `uploads/`;
  - the 5 MiB limit;
  - `path.extname`;
  - the stored file name;
  - the image filter.
- **Link verifiers**, kept separate:
  - the tiered list-then-AI verifier, which never fails;
  - the AI-only verifier, with greedy JSON extraction and a rethrowing error
    taxonomy.
- **AI wrappers**: the coach's budget-summary text block, and the error
  wrapping of the three AI calls.
- **Insights page**: filtering by type, the savings total, and the colour
  tables.

**State.** A collection is a sequence in natural (insertion) order. The
budgets collection is a map keyed by its unique compound index. A JS `Map`
or object is an insertion-ordered list of entries (`CategoryMap.Entries`).

**External calls are parameters.**

- "Now", "today" and `Date.now()` readings are arguments. Instants are local
  calendar fields, turned into milliseconds by `Calendar.Epoch`, which uses
  the Gregorian leap rule.
- The Gemini calls are given as their text or their error.
- `JSON.parse`, `new URL`, `jwt.verify`, `jwt.sign`, bcrypt and the password
  hash are function-typed arguments.
- Database failures are explicit alternatives (`Unreachable`, `Unavailable`).

**Numbers.** Money is an unbounded `int`.

Module per source file:

| module | models |
|---|---|
| `TransactionModel`, `UserModel`, `EmailPattern`, `AlertModel`, `BudgetModel`, `LoanLinkModel` | the schemas |
| `TransactionService`, `BudgetService`, `AlertService`, `UserService` | the services of the same names |
| `ObjectTally` | the monthly summary's per-category object as JavaScript evaluates it, next to the corrected tally |
| `VerificationService`, `VerifyService` | the two link verifiers |
| `Auth`, `Upload` | the two middlewares |
| `GeminiService` | the AI wrappers |
| `Insights` | the insights page |
| `Wrappers`, `Text`, `Calendar`, `CategoryMap`, `Sorting`, `Mongoose` | shared helpers: `Option`/`Result`, JS string operations, JS local dates, JS maps, `.sort({ createdAt: -1 })`, Mongoose path semantics |

## Model

| member | source | states |
|---|---|---|
| TransactionModel.ParseTxType | server/src/api/v1/models/transaction.model.js:20-24 | only "Expense" and "Income" are accepted, and a parsed type names back to the input |
| TransactionModel.TxTypeRoundTrip | server/src/api/v1/models/transaction.model.js:20-24 | every transaction type survives being stored as its name and read back |
| TransactionModel.TxFailures | server/src/api/v1/models/transaction.model.js:5-24 | `user` fails iff absent; `amount` fails iff absent; `category` fails iff given and blank after trimming; `type` fails iff absent or outside the enum |
| TransactionModel.CreateTransactionDoc | server/src/api/v1/models/transaction.model.js:3-33 | creation succeeds iff user, amount and a valid type are present and the category is absent or not blank; the document holds the inputs after the "General" default and the trim setters, both timestamps are the creation time, and the document is valid; a failure carries at least one message |
| AlertModel.ParseAlertType | server/src/api/v1/models/alert.model.js:15-19 | only "Budget", "Info" and "Warning" are accepted, and a parsed type names back to the input |
| AlertModel.AlertTypeRoundTrip | server/src/api/v1/models/alert.model.js:15-19 | every alert type survives being stored as its name and read back |
| AlertModel.AlertFailures | server/src/api/v1/models/alert.model.js:5-19 | `user` fails iff absent; `message` fails iff absent or blank after trimming; `type` fails iff given and outside the enum |
| AlertModel.NewAlertDoc | server/src/api/v1/models/alert.model.js:3-28 | an alert is built iff nothing fails; its message is trimmed and non-empty, type defaults to Info, isRead defaults to false, and both timestamps are the creation time |
| BudgetModel.NewLedger | server/src/api/v1/models/budget.model.js:3-30 | an inserted ledger carries its key and budget, totalSpent 0 and no categories, and is balanced |
| LoanLinkModel.ParseStatus | server/src/api/v1/models/loanLinkVerification.model.js:11-15 | only "Whitelisted" and "Blacklisted" are accepted, and a parsed status names back to the input |
| LoanLinkModel.StatusRoundTrip | server/src/api/v1/models/loanLinkVerification.model.js:11-15 | every status survives being stored and read back |
| LoanLinkModel.LinkFailures | server/src/api/v1/models/loanLinkVerification.model.js:4-19 | `domain` fails iff absent or blank after trimming; `status` fails iff absent or outside the enum; `institutionName` fails iff absent or empty |
| LoanLinkModel.FindByDomain | server/src/api/v1/services/verification.service.js:36 | `findOne({ domain })` finds a record with exactly that domain, and finds none iff no record has it |
| LoanLinkModel.FoundIsOnly | server/src/api/v1/models/loanLinkVerification.model.js:4-10 | with unique domains, the record found for a domain is the one holding it |
| LoanLinkModel.CreateRecord | server/src/api/v1/models/loanLinkVerification.model.js:3-24 | a record is added iff nothing fails and no record has the trimmed domain; it holds the trimmed domain, the status, the name and notes defaulting to ""; a failure leaves the list unchanged; domain uniqueness is preserved |
| Mongoose.RequiredTrimmed | server/src/api/v1/models/user.model.js:6-10 | a required trimmed string passes iff the input holds a character that is not white space |
| UserModel.NormalizeEmail | server/src/api/v1/models/user.model.js:15-16 | the stored e-mail has no ASCII upper-case letter, no surrounding white space, and is no longer than the input |
| UserModel.LowerTrimCommute | server/src/api/v1/models/user.model.js:15-16 | the trim and lowercase setters commute |
| UserModel.NormalizeEmailIdempotent | server/src/api/v1/models/user.model.js:15-16 | normalising a stored e-mail again changes nothing |
| UserModel.UserFailures | server/src/api/v1/models/user.model.js:6-26 | username fails iff blank after trimming; e-mail fails iff its normalised form does not match the pattern; password fails iff absent or shorter than 6 characters; the list is empty iff all three pass |
| UserModel.NewUserDoc | server/src/api/v1/models/user.model.js:4-50 | a user is built iff the three checks pass; it holds the trimmed username, the normalised e-mail, the hashed password, the budget defaulting to 0 and the default picture path; the result is valid |
| UserModel.AcceptedEmailNonEmpty | server/src/api/v1/models/user.model.js:12-20 | an address the pattern accepts is never empty, so `required` cannot fail on it |
| UserModel.FindUserById | server/src/api/v1/services/transaction.service.js:70 | `findById` finds a user with that id, and finds none iff no user has it |
| UserModel.FindUserByEmail | server/src/api/v1/services/user.service.js:19 | `findOne({ email })` finds a user with that e-mail, and finds none iff no user has it |
| EmailPattern.DomainIff | server/src/api/v1/models/user.model.js:18 | the scanning recogniser of the domain part accepts exactly what `\w+([\.-]?\w+)*(\.\w{2,3})+` matches |
| EmailPattern.EmailRecogniser | server/src/api/v1/models/user.model.js:17-20 | the recogniser accepts exactly the strings the anchored e-mail pattern matches |
| CategoryMap.Set | server/src/api/v1/services/budget.service.js:24 | `map.set(k, v)` makes `k` map to `v`, leaves every other key alone, keeps keys unique, and appends new keys at the end |
| CategoryMap.AddToCategorySum | server/src/api/v1/services/budget.service.js:22-24 | adding an amount to one category adds it to the sum of all categories |
| BudgetService.LedgerKeyFor | server/src/api/v1/services/budget.service.js:8-10 | the ledger month is `getMonth() + 1`, in 1..12, and the year is the date's year |
| BudgetService.Upsert | server/src/api/v1/services/budget.service.js:15-19 | an existing ledger is kept as it is, including its budget; a missing one is inserted with the user's budget; other keys are untouched |
| BudgetService.AddExpense | server/src/api/v1/services/budget.service.js:21-25 | an expense adds its amount to the total and to its category, with an absent category counting as 0; other categories are unchanged; the update fails iff the category is not a valid Map key; balance is kept |
| BudgetService.UpdateBudgetOnNewTransaction | server/src/api/v1/services/budget.service.js:6-35 | a missing user changes nothing; otherwise the key's ledger exists afterwards, keeps a budget it already had, and grows by an expense; an income, or an expense with an invalid category, leaves the upserted ledger as it is; every other ledger is untouched; nothing is ever raised |
| BudgetService.UpdateKeepsInvariants | server/src/api/v1/services/budget.service.js:15-27 | every update keeps each ledger under its own key and keeps its categories summing to its total |
| Calendar.DaysInMonth | server/src/api/v1/services/transaction.service.js:77 | months have 28 to 31 days; February has 29 iff the year is a Gregorian leap year; April, June, September and November have 30, and the other seven months 31 |
| Calendar.EndOfMonthIsLastDay | server/src/api/v1/services/transaction.service.js:77 | `new Date(y, m + 1, 0)` is the month's last day |
| Calendar.MakeDayNormalises | server/src/api/v1/services/transaction.service.js:76-77 | a month index past 11 rolls over into the following year, as `new Date` does |
| Calendar.InMonthIff | server/src/api/v1/services/transaction.service.js:76-77 | an instant lies between the month's first midnight and the next month's first midnight iff it falls in that month |
| TransactionService.WithUser | server/src/api/v1/services/transaction.service.js:17-20 | the document `{ user: userId, ...data }` has a user; a `user` in the data overrides `userId`; no other field changes |
| TransactionService.CreateTransaction | server/src/api/v1/services/transaction.service.js:16-26 | creation succeeds iff amount and a valid type are present and the category is absent or not blank; success appends exactly the new transaction, with the data's user winning over `userId`; failure leaves the store unchanged |
| TransactionService.CreateTransactionFromSms | server/src/api/v1/services/transaction.service.js:34-62 | an AI error reaches the caller unchanged; an unparsable answer, a falsy amount or type, or a failed create all give "Could not process the transaction from SMS." and change nothing; success appends the transaction, whose amount is non-zero |
| TransactionService.ZeroAmountOnlyManually | server/src/api/v1/services/transaction.service.js:52-57 | an amount of 0 is accepted when typed in but rejected when it comes from an SMS |
| TransactionService.AsWrittenWindowIff | server/src/api/v1/services/transaction.service.js:75-82 | the queried window holds every day of the month but the last, plus only midnight on the last day |
| TransactionService.AsWrittenWindowMissesLastDay | server/src/api/v1/services/transaction.service.js:76-82 | an expense at noon on the month's last day falls outside the window |
| TransactionService.MonthWindowIff | server/src/api/v1/services/transaction.service.js:76-77 | the corrected window holds exactly the instants of the current month |
| TransactionService.Matching | server/src/api/v1/services/transaction.service.js:79-83 | the query returns exactly the user's expenses inside the window |
| TransactionService.CategoriesOccur | server/src/api/v1/services/transaction.service.js:88-91 | the category keys are exactly the categories that occur |
| TransactionService.TallyStep | server/src/api/v1/services/transaction.service.js:88-91 | one `forEach` step adds the amount to the total and to its category and keeps the tally consistent |
| TransactionService.TallyCorrect | server/src/api/v1/services/transaction.service.js:85-91 | the fold's total is the sum of the amounts; its keys are unique and exactly the categories that occur; each category maps to the sum of its amounts; the categories sum to the total |
| TransactionService.SummaryOver | server/src/api/v1/services/transaction.service.js:69-98 | a missing user gives "User not found"; otherwise the budget is the user's, the total and categories are those of the matching expenses, and `remaining` is budget minus total, without clamping |
| TransactionService.OthersContributeNothing | server/src/api/v1/services/transaction.service.js:79-91 | an income, another user's row or a row outside the window leaves the summary unchanged |
| TransactionService.ExpenseCounts | server/src/api/v1/services/transaction.service.js:88-96 | a selected expense raises the total and its category by its amount, lowers `remaining` by the same, and leaves every other category alone |
| ObjectTally.Read | server/src/api/v1/services/transaction.service.js:90 | `categorySpent[c]` gives the own property if there is one; otherwise a method for a name `Object.prototype` defines, and `undefined` for any other name |
| ObjectTally.AddAmount | server/src/api/v1/services/transaction.service.js:90 | adding the amount to the value read, or to 0 when that is falsy, adds numerically for a falsy or numeric `v`, and concatenates text for a method, the prototype or a non-empty string |
| ObjectTally.Assign | server/src/api/v1/services/transaction.service.js:90 | an assignment to `__proto__` changes nothing; any other assignment makes the value the key's own property |
| ObjectTally.AsWrittenTally | server/src/api/v1/services/transaction.service.js:86-91 | the running total as written equals the corrected tally's total, whatever the categories are called |
| ObjectTally.AgreesOnOrdinaryNames | server/src/api/v1/services/transaction.service.js:86-91 | when no category is named like a member of `Object.prototype`, the object as written holds exactly the corrected tally, in the same order |
| ObjectTally.InheritedNameConcatenates | server/src/api/v1/services/transaction.service.js:90 | example: one expense under a name such as "toString" is stored as the method's text followed by the amount, where the corrected tally holds the amount |
| ObjectTally.ProtoNameDropped | server/src/api/v1/services/transaction.service.js:90 | example: one expense under "__proto__" leaves no property at all, where the corrected tally holds the amount |
| TransactionService.IntendedSummaryCountsMonth | server/src/api/v1/services/transaction.service.js:75-83 | with the corrected window, a transaction counts iff it is the user's expense of the current month |
| TransactionService.SixtyDaysBefore | server/src/api/v1/services/transaction.service.js:103-104 | the cutoff is exactly sixty days of milliseconds before now |
| TransactionService.RecentOf | server/src/api/v1/services/transaction.service.js:106 | the query returns exactly the user's transactions created at or after the cutoff |
| TransactionService.GetAllUserTransactions | server/src/api/v1/services/transaction.service.js:101-107 | the result holds exactly the user's transactions from the last sixty days, newest first, each as often as in the query |
| Sorting.InsertSorted | server/src/api/v1/services/alert.service.js:11 | inserting into a newest-first list keeps it newest first |
| Sorting.InsertAddsOne | server/src/api/v1/services/alert.service.js:11 | insertion adds exactly the one element |
| Sorting.SortNewestFirst | server/src/api/v1/services/alert.service.js:11 | `.sort({ createdAt: -1 })` gives a newest-first permutation of its input |
| Sorting.SortKeepsMembers | server/src/api/v1/services/transaction.service.js:106 | sorting keeps exactly the elements it was given |
| AlertService.UnreadOf | server/src/api/v1/services/alert.service.js:11 | the query returns exactly the user's unread alerts |
| AlertService.GetUnreadAlerts | server/src/api/v1/services/alert.service.js:8-13 | the result holds exactly the user's unread alerts, newest first, each as often as in the query |
| AlertService.FindOwned | server/src/api/v1/services/alert.service.js:23 | the lookup finds an alert with both the id and the user, and finds none iff there is none |
| AlertService.MarkAlertAsRead | server/src/api/v1/services/alert.service.js:21-32 | a missing or foreign alert gives the not-found message and leaves the store unchanged; otherwise only that alert changes, it becomes read, and `updatedAt` moves only if it was unread |
| AlertService.MarkAlertAsReadParam | server/src/api/v1/controllers/alert.controller.js:26-31 | an `alertId` that does not cast to an ObjectId fails with the cast message and changes nothing; a cast id fails iff the user owns no alert with it, then with the not-found message; on success the alert returned is read, has that id and belongs to the user |
| AlertService.MarkIdempotent | server/src/api/v1/services/alert.service.js:29-31 | marking the same alert twice, at any two times, leaves the same store and result as marking it once |
| AlertService.FindOwnedAfterUpdate | server/src/api/v1/services/alert.service.js:23-31 | after the update the same alert is still found at the same position |
| AlertService.MarkedLeavesUnread | server/src/api/v1/services/alert.service.js:11-31 | after a successful mark the alert is no longer among the unread, and every other unread alert still is |
| Text.ReplaceFirst | server/src/api/v1/services/verification.service.js:33 | `replace` with a string pattern removes only the first occurrence, and changes nothing when there is none |
| VerificationService.NormalizeDomain | server/src/api/v1/services/verification.service.js:33 | the domain is the host with its first "www." removed, wherever it occurs |
| VerificationService.NormalizeDomainUnanchored | server/src/api/v1/services/verification.service.js:33 | example: "m.www.in" becomes "m.in", because the removal is not anchored at the start |
| VerificationService.NormalizeDomainFirstOnly | server/src/api/v1/services/verification.service.js:33 | example: "www.www.bank.in" becomes "www.bank.in", because only one occurrence is removed |
| VerificationService.Tier1Verdict | server/src/api/v1/services/verification.service.js:37-42 | Whitelisted gives Verified with risk 0; Blacklisted gives Blacklisted with risk 100; the reason names the list and the institution |
| VerificationService.VerifyLoanLink | server/src/api/v1/services/verification.service.js:30-59 | a bad URL or a store error gives the fixed Suspicious/75 verdict; a listed domain gives its list verdict; otherwise the AI's parsed answer is returned untouched, and an AI or parse failure gives the fixed verdict |
| VerificationService.ListedIgnoresAi | server/src/api/v1/services/verification.service.js:36-46 | for a listed domain the outcome does not depend on the AI's answer or on how it parses |
| VerificationService.NeverFails | server/src/api/v1/services/verification.service.js:50-58 | every outcome is a list verdict, the AI's answer or the fixed fallback: there is no error outcome |
| VerifyService.JsonSpan | server/src/api/v1/services/verify.service.js:39 | the match runs from the first '{' to just after the last '}', and there is none iff either brace is missing or the first '{' comes after the last '}' |
| VerifyService.JsonCandidate | server/src/api/v1/services/verify.service.js:39-41 | the candidate is that substring, so it starts with '{' and ends with '}' |
| VerifyService.CandidateIsLeftmostLongest | server/src/api/v1/services/verify.service.js:39-41 | a candidate exists iff some '{' precedes some '}', and it then covers every such pair |
| VerifyService.WholeTextIsCandidate | server/src/api/v1/services/verify.service.js:39 | a text that starts with '{' and ends with '}' is taken whole |
| VerifyService.Rethrown | server/src/api/v1/services/verify.service.js:56 | the rethrown error keeps a non-empty message and replaces an empty one with the default |
| VerifyService.VerifyLoanLink | server/src/api/v1/services/verify.service.js:12-58 | an AI error is rethrown with its message; no candidate gives "AI did not provide a valid analysis."; an unparsable candidate gives "AI returned a malformed response."; otherwise the parsed candidate is returned; every error message is non-empty |
| VerifyService.OkOnlyFromParse | server/src/api/v1/services/verify.service.js:43-44 | a successful answer is always what the candidate parsed to |
| Upload.SizeLimitIsFiveMegabytes | server/src/api/v1/middlewares/upload.middleware.js:26 | example at the boundary: 5242880 bytes are allowed and one more byte is not |
| Upload.ExtName | server/src/api/v1/middlewares/upload.middleware.js:17 | `path.extname` is empty or starts with '.', and holds no further '.' or '/' |
| Upload.ExtNameOfStemAndExtension | server/src/api/v1/middlewares/upload.middleware.js:17 | a name made of a stem and ".ext" has extension ".ext" |
| Upload.ExtNameIgnoresTrailingSlash | server/src/api/v1/middlewares/upload.middleware.js:17 | a trailing '/' never changes the extension, as `path.extname` strips trailing separators |
| Upload.ExtNameEdgeCases | server/src/api/v1/middlewares/upload.middleware.js:17 | example: "a." has extension ".", "a.b/c" has none, and "a.png/" has ".png" |
| Upload.NoDotNoExtension | server/src/api/v1/middlewares/upload.middleware.js:17 | a name without a dot has no extension |
| Upload.HiddenFileNoExtension | server/src/api/v1/middlewares/upload.middleware.js:17 | a leading dot, as in ".bashrc", does not start an extension |
| Upload.FileFilter | server/src/api/v1/middlewares/upload.middleware.js:28-43 | a file passes iff its MIME type contains jpeg, jpg, png or gif and so does its lower-cased extension; a rejection carries exactly the fixed message |
| Upload.MimeTestIsCaseSensitive | server/src/api/v1/middlewares/upload.middleware.js:33 | example: "image/png" passes the pattern and "IMAGE/PNG" does not |
| Upload.ExtensionTestIgnoresCase | server/src/api/v1/middlewares/upload.middleware.js:33-34 | a ".PNG" file passes with type "image/png" but not with "IMAGE/PNG" |
| Upload.FilterIsUnanchored | server/src/api/v1/middlewares/upload.middleware.js:30-34 | a ".pngx" file passes: the test is a substring search |
| Upload.StoredFilename | server/src/api/v1/middlewares/upload.middleware.js:17 | the name is the field name, '-', then the decimal digits of the clock reading (they read back as exactly that reading), then the original's extension |
| Upload.StoredFilenameKeepsExtension | server/src/api/v1/middlewares/upload.middleware.js:17 | the stored name has the same extension as the original |
| Upload.StoredFilenamesDiffer | server/src/api/v1/middlewares/upload.middleware.js:17 | different clock readings give different names |
| Text.NatToStringRoundTrip | server/src/api/v1/middlewares/upload.middleware.js:17 | the decimal digits of `Date.now()` read back as the same number |
| Auth.ExtractToken | server/src/api/v1/middlewares/auth.middleware.js:9-20 | a header starting with "Bearer" gives its second space-separated field or nothing; only otherwise is a non-empty cookie token used |
| Auth.BearerTokenRoundTrip | server/src/api/v1/middlewares/auth.middleware.js:10-15 | "Bearer &lt;token&gt;" yields the token, whatever the cookie holds |
| Auth.BareBearerShadowsCookie | server/src/api/v1/middlewares/auth.middleware.js:10-27 | a bare "Bearer" header yields no token even when a cookie token exists |
| Auth.WithoutPassword | server/src/api/v1/middlewares/auth.middleware.js:34 | `select("-password")` keeps every other field of the user |
| Auth.Protect | server/src/api/v1/middlewares/auth.middleware.js:5-55 | every refusal is a 401; no token gives "no token provided"; a token `jwt.verify` rejects, an `id` claim that is not an ObjectId, or an unreachable store gives "invalid token"; a payload without `id`, or whose `id` names no user, gives "user for this token does not exist"; `next` is called iff the token verifies to an id whose user exists, and then with that user without the password |
| Auth.BearerHeaderIgnoresCookie | server/src/api/v1/middlewares/auth.middleware.js:10-20 | with a "Bearer" header the outcome does not depend on the cookie |
| Auth.CookieTokenPasses | server/src/api/v1/middlewares/auth.middleware.js:18-48 | with no header, a valid cookie token for an existing user passes with that user |
| UserService.Projection | server/src/api/v1/services/user.service.js:39-44 | the public user is exactly id, username, e-mail and monthly budget |
| UserService.LoginUser | server/src/api/v1/services/user.service.js:17-46 | every failure is "Invalid email or password"; success holds iff a user has the normalised e-mail and the password matches, and then returns the projection and a token signed over the id with a "1d" expiry |
| UserService.LoginFailuresIndistinguishable | server/src/api/v1/services/user.service.js:19-28 | an unknown e-mail and a wrong password give identical answers |
| UserService.LoginFindsRegisteredUser | server/src/api/v1/services/user.service.js:19-45 | with unique e-mails, any spelling that normalises to a user's address logs that user in |
| UserService.InsertUnique | server/src/api/v1/services/user.service.js:10 | the save succeeds iff no user has the same id or e-mail; it appends exactly the new user; uniqueness is preserved |
| UserService.RegisterUser | server/src/api/v1/services/user.service.js:8-12 | an invalid document gives its messages; a valid one is saved and returned iff it collides with no user; failure leaves the users unchanged |
| UserService.RegisterThenLogin | server/src/api/v1/services/user.service.js:8-46 | a user just registered can log in with the e-mail and password they gave |
| UserService.SaveUser | server/src/api/v1/models/user.model.js:35-50 | a later `save()` of a stored user: with no password assigned, or the stored value assigned again, the store is left exactly as it was (no hash, no `updatedAt`); a different assigned password is stored as its hash with `updatedAt` set to the save time and every other field kept; other users are untouched and the indexes stay unique |
| UserService.ChangePasswordThenLogin | server/src/api/v1/models/user.model.js:40-50 | after assigning a new password and saving, the new password logs in with that user's session, and (with an exact comparison) the old password no longer does |
| UserService.ResaveKeepsLogin | server/src/api/v1/models/user.model.js:40-44 | saving a registered user again without assigning the password keeps the hash, so the registration password still logs in with the same answer |
| UserService.RehashLocksOut | server/src/api/v1/models/user.model.js:40-48 | the reason for the `isModified` check: when the comparison accepts exactly the hash of the password, a hook without the check, which hashes the stored hash again on every save, locks the user out (unless the hash is a fixed point), while the guarded save keeps the login |
| GeminiService.Render | server/src/api/v1/services/gemini.service.js:42-44 | a missing amount renders as "undefined" and no amount renders with a line break |
| GeminiService.EntryLinesInOrder | server/src/api/v1/services/gemini.service.js:48-50 | line i of the breakdown is "- category: ₹amount" of entry i, in the Map's iteration order |
| GeminiService.BodyLines | server/src/api/v1/services/gemini.service.js:46-53 | when building the lines does not throw: the "Spending Breakdown:" heading appears iff the category Map is non-empty, followed by one line per entry; otherwise there is only the no-expenses line |
| GeminiService.SummaryText | server/src/api/v1/services/gemini.service.js:42-53 | building the summary throws exactly when `categorySpent` is a plain object whose own `size` key holds a positive number, so that `.forEach` is not a function |
| GeminiService.SummaryLineList | server/src/api/v1/services/gemini.service.js:42-53 | the summary is the three amount lines, in order, followed by the body lines |
| GeminiService.SummaryLinesSingle | server/src/api/v1/services/gemini.service.js:42-53 | with single-line categories, no summary line contains a line break |
| GeminiService.SummaryTextLines | server/src/api/v1/services/gemini.service.js:42-53 | splitting the summary text at line breaks gives back its lines and a final empty field: every line ends in "\n" |
| GeminiService.PlainObjectHasNoBreakdown | server/src/api/v1/services/gemini.service.js:46-53 | a plain object never yields a breakdown, however many categories it holds: its lines end with the no-expenses line, and the advice call succeeds only when its `size` key is absent or not positive |
| GeminiService.SizeCategoryFailsAdvice | server/src/api/v1/services/gemini.service.js:46-48 | example: a plain object whose only category is "size", holding 120, makes the advice call fail whatever the coach answers |
| GeminiService.ParseTransactionFromSms | server/src/api/v1/services/gemini.service.js:8-35 | the parsed answer is returned iff the AI answers and its text parses; every failure is ApiError(500, "Failed to parse SMS with AI service") |
| GeminiService.GetFinancialAdvice | server/src/api/v1/services/gemini.service.js:38-76 | the coach's text is returned unchanged as `advice`; a missing summary, a summary whose text throws while being built, or a coach failure gives ApiError(500, "Failed to get advice from AI service") |
| GeminiService.GenerateFinancialInsights | server/src/api/v1/services/gemini.service.js:85-145 | a missing budget fails unwrapped, before the `try`; otherwise the parsed answer is returned iff the AI answers and its text parses, and every other failure is ApiError(500, "Failed to generate AI insights.") |
| Insights.TypeToCategory | client/src/pages/AIInsights.jsx:47-52 | exactly the four types spending, savings, investment and debt have a category: Food, Savings, Investment and Debt Management |
| Insights.FilteredInsights | client/src/pages/AIInsights.jsx:54-65 | "all" returns the list unchanged; any other type keeps exactly the insights whose category is non-empty and, lower-cased, contains the lower-cased needle |
| Insights.KeepShownDistributes | client/src/pages/AIInsights.jsx:57-65 | filtering a concatenation is concatenating the filtered parts, so order is preserved |
| Insights.UnknownTypeShowsCategorised | client/src/pages/AIInsights.jsx:59-64 | an unknown type searches for "" and so shows every insight that has a category |
| Insights.SavingsOf | client/src/pages/AIInsights.jsx:69 | an insight's savings are `estimatedSavings` when truthy, else `estimatedAnnualSavings` when truthy, else 0 |
| Insights.TotalSavings | client/src/pages/AIInsights.jsx:67-71 | the total of no insights is 0 and the total of one insight is its savings; with `TotalSavingsAppend` this fixes the total of every list |
| Insights.TotalSavingsAppend | client/src/pages/AIInsights.jsx:67-71 | the total of a concatenation is the sum of the totals |
| Insights.FilteringNeverRaisesTotal | client/src/pages/AIInsights.jsx:54-71 | when no insight has negative savings, selecting a type never raises the total |
| Insights.ImpactColor | client/src/pages/AIInsights.jsx:96-107 | High, Medium and Low map to red, yellow and green, and the gray class is returned iff the impact is none of them |
| Insights.StatusColor | client/src/pages/AIInsights.jsx:109-120 | over, optimal and under map to red, green and blue, and gray is returned iff the status is none of them |

## Left out

- Network, database and AI calls are not modelled: Gemini `generateContent`, the Mongoose queries themselves, bcrypt, `jwt.sign`/`jwt.verify`, `new URL` and `JSON.parse` are parameters. The prompt texts sent to the AI are not modelled, only the summary block inside the coach prompt.
- Controllers, routes, `server.js` and the React rendering are not modelled: they are request dispatch and UI. `server.js` mounts the AI-only verifier (`verify.routes`), while the tiered verifier is wired only through `routes/index.js`. The model keeps both verifiers, separately.
- The upload model covers only multer's decisions. Its streaming, the disk writes and the `fileSize` enforcement during upload are not modelled; only the limit itself is.
- Floating-point money is not modelled: amounts are unbounded integers. Amounts that arrive as strings from JSON are not modelled either; with them, `+=` would concatenate.
- `toLocaleString('en-IN')` of the budget in the insights prompt is not modelled: it formats prompt text only. Numbers of 1e21 and above, whose JS text is in exponent form, are also not modelled.
- Daylight-saving shifts are not modelled: local time is a calendar day plus milliseconds into it, with every day exactly 86400000 ms long.
- `Text.Lower` lowers ASCII letters only. JavaScript's `toLowerCase` also lowers other scripts, and no Unicode case mapping is modelled. `Text.Trim` uses the JS white-space set, but the `minlength` check counts `char`s where JS counts UTF-16 units.
- JavaScript's `null` and `undefined` are one missing value (`None`). An explicit `user: undefined` in the transaction data would override `userId` in JS; the model treats it as absent.
- A plain object's keys are modelled in insertion order. JS moves integer-like keys first. `typeToCategory` lookups of inherited keys such as "constructor" are not modelled either: the model treats them as unknown types.
- The budget ledger is keyed from a date passed as an input. The source reads `transaction.date`, which the Transaction schema does not define, and the update is never called: its call is commented out at transaction.service.js:23.
- `checkBudgetAndCreateAlerts` is not modelled: its body is not part of this model. The model ends the update at the save.
- `createTransaction` lets a client-supplied `createdAt` through to the document in some Mongoose versions. The model always stamps the creation time.
- Mongoose's trim and lowercase setters are assumed to run on query filters, as they do by default. This is why login normalises the e-mail it looks up.
- The `protect` middleware reads `req.cookies`, but no cookie parser is mounted in `server.js`. The model takes the cookie as an input. An exception thrown by `next()` inside the `try` would also produce the "invalid token" answer; this is not modelled.
- Concurrency between requests is not modelled: each operation is one atomic state transition.
- TransactionService.GetMonthlySummary: its contract only ties it to `SummaryOver` over the window as written, and `SummaryOver` carries the properties. `TransactionService.IntendedMonthlySummary` is the same over the corrected window.
- GeminiService.HeaderLines: states only that there are three single-line lines; their order and labels are stated through `SummaryLineList` and the `AmountLine` bodies.
- Sorting.Insert: states only the length; sortedness and contents are the lemmas `InsertSorted` and `InsertAddsOne`.
- TransactionService.Tally: models the evidently intended per-category sums, which JavaScript computes only for names that are not members of `Object.prototype`; the behaviour as written for the other names is `ObjectTally.AsWrittenTally` (see Findings).
- TransactionService.SummaryOver: uses the corrected `Tally`, so a category named like a member of `Object.prototype` gets its numeric sum here; the source stores text or drops it, as `ObjectTally` shows.
- TransactionService.TallyStep: the same; it is the step of the corrected tally.
- TransactionService.ExpenseCounts: the same; it holds for the corrected tally.
- AlertService.MarkAlertAsRead: takes an id that is already an ObjectId; the cast of the route parameter, with its cast-error message, is `AlertService.MarkAlertAsReadParam`, and the ObjectId cast itself is a parameter there.
- Auth.Protect: whether an `id` claim casts to an ObjectId is decided by the `verify` parameter (`Uncastable`); Mongoose's cast rules are not modelled.
- UserService.SaveUser: models a save that assigns at most the password; assigning other fields (username, budget, picture) before a save, which would also move `updatedAt`, is not modelled because no operation of the server re-saves a stored user.
- UserModel.PasswordOnSave: states only the two branches of the hook; what they are for is stated by `UserService.ResaveKeepsLogin` and `UserService.RehashLocksOut`.

## Findings

| source | as written | input that shows it | evidently intended | confidence | as-written member | corrected member |
|---|---|---|---|---|---|---|
| server/src/api/v1/services/transaction.service.js:77 | the window ends at `new Date(y, m + 1, 0)`, which is midnight at the START of the month's last day, and `$lte` includes only that instant | an expense created at 12:00 on 31 January, queried on any January day, is left out of January's `totalSpent` | the whole month, through 23:59:59.999 on the last day | not executed | TransactionService.AsWrittenWindowMissesLastDay | TransactionService.MonthWindowIff |
| server/src/api/v1/services/transaction.service.js:86-91 | `categorySpent` is the plain object `{}`, so reading `categorySpent[t.category]` before falling back to 0 finds the members `Object.prototype` defines under names such as "toString" or "constructor", and an assignment to `__proto__` is ignored | one expense of 100 under the category "toString" (categories are free text) is stored as "function toString() { [native code] }100"; one under "__proto__" does not appear at all | every category, whatever its name, maps to the sum of its amounts | not executed | ObjectTally.InheritedNameConcatenates | TransactionService.TallyCorrect |
