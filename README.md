# Expense splitting: validators, split engine and balance sheets

This project models the pure logic inside an Express/Firestore backend for sharing expenses.
The logic lives in `controllers/expenseController.js` and `controllers/userController.js`.

- **`validateExpenseInput`** (`ExpenseValidation`). A stand-alone pre-validator over a split
  method, a participant list and a list of amounts. A percentage request must have amounts that
  add up to 100. Every amount must be positive. The percentage test runs first, so its message
  is the one reported when both fail.
- **The split computation of `addExpense`** (`SplitCalculator`). It starts after the
  participants' emails have been looked up. The lookup result is an input: one optional UID per
  email. The missing ones (`null`) are filtered out. An empty list is turned down with 404. The
  owed-amount map is then built for the `equal`, `exact` and `percentage` methods. Any other
  method, or a missing `splits` object, is refused.
  - `ComputeExpense` keeps the source's shape: a `forEach` loop per method (`EqualLoop`,
    `ExactLoop`, `PercentageLoop`) and the `reduce` over `Object.values(splits)` (`SumOfSplits`).
  - It is proved equal to the specification function `Split`. The lemmas state the keys, the
    values, the sums and the error precedence of `Split`.
- **The balance-sheet fold** (`BalanceSheets`). The fetched expenses are an input, in the order
  the store returned them. Each expense adds `amountsOwed[uid] || 0` to `totalOwed` and gives
  one entry. `totalPaid` stays 0.
  - `downloadBalanceSheet` (lines 189-200) and `downloadBalanceSheetAsPDF` (lines 245-256) hold
    the same fold, which pushes the entries to a list. `BalanceSheetFor` models both.
  - `generateBalanceSheet` (lines 155-165) stores the entries in an object keyed by expense id
    instead. `KeyedBalanceSheetFor` models it: when two expenses share an id, the later one wins.
- **`validateUserInput`** (`UserValidation`). The email is tested against
  `^[^\s@]+@[^\s@]+\.[^\s@]+$`, then the mobile number against `^[0-9]{10}$`.
  - `IsValidEmail` is a direct test of the email, and `MatchesEmailPattern` reads the regex
    field by field. The two are proved equivalent.
  - JavaScript's `\s` is the fixed set of characters in `IsWhitespace`: ASCII tab, line feed,
    vertical tab, form feed, carriage return and space, and the Unicode space separators, line
    and paragraph separators and the byte-order mark.

Modules:

- `Wrappers`: `Option`, `Result` and `Validation`.
- `RealSums`:
  - `Sum` is a left fold over a sequence, like `reduce`. It is proved independent of order.
  - `SumOver` and `SumValues` sum the values of a map.
- `Expenses`: the split method and the stored expense record.
- `ExpenseValidation`, `SplitCalculator`, `BalanceSheets` and `UserValidation`: described above.

Amounts are mathematical reals. "Sums to 100" therefore means exactly 100 here, with no
floating-point rounding.

The controller's call site at line 31 passes a variable `amounts` that is never defined. The
pre-validator and the split computation are therefore separate entry points: once a request has
parsed, `ValidateExpenseInput` and `ComputeExpense` can each be applied to it.

## Model

| member | source | states |
|---|---|---|
| Expenses.ParseSplitMethod | controllers/expenseController.js:58-83 | The method string becomes `Equal`, `Exact` or `Percentage` exactly when it equals "equal", "exact" or "percentage"; any other string is kept as `Other` with its name unchanged |
| ExpenseValidation.ValidateExpenseInput | controllers/expenseController.js:7-20 | Valid iff (method is not percentage or the amounts sum to 100) and every amount is > 0; a percentage request whose sum is not 100 gets "Percentages must sum to 100%"; otherwise a non-positive amount gets "All amounts must be positive" |
| ExpenseValidation.NonPositiveAmountRejected | controllers/expenseController.js:15-17 | Any amount <= 0 makes the input invalid whatever the method; for a non-percentage method the message is the positivity one |
| ExpenseValidation.PercentageMessageWins | controllers/expenseController.js:8-17 | When both tests fail ([120, -20, 10] as percentages), the percentage-sum message is reported |
| ExpenseValidation.ParticipantsIgnored | controllers/expenseController.js:7-20 | The participant list has no influence on the result |
| ExpenseValidation.OrderOfAmountsIgnored | controllers/expenseController.js:9-15 | Two amount lists with the same multiset of values get the same result |
| ExpenseValidation.EmptyAmounts | controllers/expenseController.js:8-19 | An empty amount list is valid for every method except percentage, where its sum 0 fails the test |
| ExpenseValidation.PercentageExamples | tests/validation.test.js:3-12 | [40, 30, 30] as percentages is valid; [40, 30, 20] is invalid with "Percentages must sum to 100%" |
| RealSums.SumPermutation | controllers/expenseController.js:9 | The left-fold sum of a list depends only on the multiset of its elements |
| RealSums.SumOverRemove | controllers/expenseController.js:71 | The sum of a map's values can split off any one key, so it does not depend on the order in which the keys are visited |
| SplitCalculator.ResolvedUids | controllers/expenseController.js:49 | The filtered list is no longer than the lookup result, and a UID is in it iff some lookup returned it |
| SplitCalculator.ResolvedUidsAppend | controllers/expenseController.js:49 | Filtering a concatenation gives the concatenation of the filtered parts, so the found UIDs keep the request's order |
| SplitCalculator.ResolvedUidsSingle | controllers/expenseController.js:42-49 | A found UID is kept; a `null` lookup result is dropped |
| SplitCalculator.ResolvedUidsEmpty | controllers/expenseController.js:49-53 | The filtered list is empty iff every lookup returned `null` |
| SplitCalculator.ResolvedThreeExample | controllers/expenseController.js:49 | Lookup results [u1, u1, u2] are kept as they are, repeat included |
| SplitCalculator.SumOfSplits | controllers/expenseController.js:71 | The loop total is the sum of all values of `splits` |
| SplitCalculator.EqualLoop | controllers/expenseController.js:58-62 | The map the loop builds gives every UID of the list `amount / N`, N the length of the list, and has no other key |
| SplitCalculator.ExactLoop | controllers/expenseController.js:63-69 | The map the loop builds holds, for each UID of the list that has a `splits` entry, that entry, and no other key |
| SplitCalculator.PercentageLoop | controllers/expenseController.js:76-80 | The map the loop builds holds, for each UID of the list that has a `splits` entry, `amount * (entry / 100)`, and no other key |
| SplitCalculator.ComputeExpense | controllers/expenseController.js:49-83 | The computation returns exactly the answer of the specification `Split`: the 404 failure, the two 400 failures, or the record with amount, UIDs, method and owed map |
| SplitCalculator.SplitOutcome | controllers/expenseController.js:51-83 | No found UID gives 404 whatever the method; the invalid-method error is given iff some UID was found and the method is not equal and not (exact or percentage with `splits`); the percentage-sum error is given iff some UID was found, the method is percentage with `splits` and the values do not add up to 100; a success carries the request's amount and method and the found UIDs |
| SplitCalculator.EqualSplitShares | controllers/expenseController.js:58-62 | Equal split succeeds; the owed map's keys are exactly the found UIDs and each value is `amount / N` |
| SplitCalculator.EqualSharesSum | controllers/expenseController.js:59-62 | The equal shares add up to `amount / N * D`, D the number of distinct UIDs |
| SplitCalculator.EqualSharesSumDistinct | controllers/expenseController.js:59-62 | With no UID repeated, the equal shares add up to `amount` |
| SplitCalculator.EqualSplitRepeatedParticipant | controllers/expenseController.js:59-62 | 90 split equally over [u1, u1, u2] gives u1 and u2 30 each, so only 60 is owed |
| SplitCalculator.ExactSplitShares | controllers/expenseController.js:63-69 | Exact split with `splits` succeeds; the keys are the found UIDs that have an entry, each value copied unchanged |
| SplitCalculator.ExactSharesSum | controllers/expenseController.js:63-69 | The exact shares add up to the sum of the entries of the found UIDs only |
| SplitCalculator.ExactSplitOmission | controllers/expenseController.js:65-69 | With UIDs [a, b] and splits {a: 30}, b is left out and only 30 is owed |
| SplitCalculator.PercentageSplitShares | controllers/expenseController.js:70-80 | A percentage request with `splits` fails with "Percentages must add up to 100." iff all `splits` values do not add up to 100; on success the keys are the found UIDs that have an entry, each owing `amount * (entry / 100)` |
| SplitCalculator.PercentageSharesScale | controllers/expenseController.js:76-80 | The percentage shares add up to `amount / 100` times the percentages of their own keys |
| SplitCalculator.PercentageSharesSum | controllers/expenseController.js:76-80 | The percentage shares add up to `amount / 100` times the percentages of the found UIDs only |
| SplitCalculator.PercentageSharesSumComplete | controllers/expenseController.js:70-80 | When the percentages add up to 100 and every key of `splits` is a found UID, the shares add up to `amount` |
| SplitCalculator.PercentageSplitStrayKey | controllers/expenseController.js:70-80 | splits {a: 50, b: 50} passes the sum check with only a found; a owes 40 of 80 and the rest is lost |
| BalanceSheets.BalanceSheetFor | controllers/expenseController.js:183-200 | `totalOwed` is the fold `TotalOwed` of the owed amounts, an absent entry counting 0; `totalPaid` is 0; there is one entry per expense, in input order, with its id, amount, owed amount and method |
| BalanceSheets.KeyedBalanceSheetFor | controllers/expenseController.js:149-165 | `totalOwed` is `TotalOwed`; `totalPaid` is 0; the keys are exactly the expense ids, and each id holds the amount, owed amount and method of the last expense with that id |
| BalanceSheets.TotalOwedAppend | controllers/expenseController.js:189-193 | The total over two concatenated expense lists is the sum of their totals |
| BalanceSheets.TotalIsSumOfColumn | controllers/expenseController.js:193-199 | The total of a sheet equals the sum of its owed-amount column |
| BalanceSheets.TotalOwedAbsent | controllers/expenseController.js:191 | A user with no entry in any expense owes 0 in total |
| BalanceSheets.TotalOwedNonNegative | controllers/expenseController.js:191-193 | When no owed amount is negative, the total is not negative |
| BalanceSheets.TotalOwedCoversEach | controllers/expenseController.js:191-193 | When no owed amount is negative, the total is at least each expense's share |
| BalanceSheets.TotalOwedExample | controllers/expenseController.js:189-193 | Shares of 50, 20 and an absent entry total 70 |
| UserValidation.ValidateUserInput | controllers/userController.js:3-14 | Valid iff the email and the mobile both pass; a bad email gives "Invalid email format" whatever the mobile; a good email with a bad mobile gives "Invalid mobile number" |
| UserValidation.IsValidMobile | controllers/userController.js:5-12 | A mobile passes iff it has exactly 10 characters, each in '0'..'9' |
| UserValidation.EmailTestSound | controllers/userController.js:4-9 | An email that passes the test matches the regex, field by field |
| UserValidation.EmailTestComplete | controllers/userController.js:4-9 | A string with an `@` at i and a `.` at j, and with the three fields non-empty and free of `@` and white space, passes the test |
| UserValidation.EmailTestMatchesPattern | controllers/userController.js:4-9 | The email test accepts exactly the strings the regex matches |
| UserValidation.AcceptedEmailShape | controllers/userController.js:4 | An accepted email contains exactly one `@` and no white space |
| UserValidation.AcceptedEmailExample | controllers/userController.js:4 | "ann@mail.com" is accepted |
| UserValidation.DomainWithoutDotRejected | controllers/userController.js:4 | "ann@mail" is refused: the domain has no dot |
| UserValidation.SpaceRejected | controllers/userController.js:4 | "ann @mail.com" is refused: the local part holds a space |
| UserValidation.SecondAtRejected | controllers/userController.js:4 | "ann@x@mail.com" is refused: the domain holds an `@` |
| UserValidation.MobileExamples | controllers/userController.js:5-12 | "9876543210" passes; "98765 4321" does not |
| UserValidation.AcceptedExample | controllers/userController.js:3-14 | A good email with a good mobile is valid |
| UserValidation.RejectedEmailExamples | controllers/userController.js:7-9 | A bad email is reported as such, even when the mobile is also bad |
| UserValidation.RejectedMobileExample | controllers/userController.js:10-12 | A good email with a bad mobile reports the mobile |

## Left out

- Firestore is not modelled. This covers the email-to-UID lookup (lines 38-46), storing the expense (line 94), and the queries of `getUserExpenses`, `getOverallExpenses` and the three balance-sheet handlers. The lookup result and the fetched expenses are inputs.
- `getUserExpenses` pagination and `getOverallExpenses` (lines 103-138) only pass values to and from the database.
- CSV and PDF rendering, file writes and deletion, `res.download`, and every HTTP status and response body are not modelled. The failures carry the status and `error` text the handler would send.
- Registration, login and user-detail calls (userController.js lines 17-89), the authentication middleware, the route files, `server.js` and the Firebase configuration are not modelled. They call into services whose code is not part of this model.
- The required-field test at line 27 is not modelled. It sits in front of the crashing call at line 31, is a JavaScript truthiness test, and decides nothing the split computation depends on.
- The `ReferenceError` at line 31 is not modelled. It is a runtime crash, so the two entry points are modelled separately.
- `createdAt` (line 90) is a clock reading and is not modelled. The order of keys in the `amountsOwed` and `balances` objects is not modelled either: JavaScript objects list integer-like keys first in ascending numeric order and the other string keys in insertion order, while Dafny maps have no order.
- Floating-point arithmetic is not modelled. Amounts are reals: the `!== 100` comparisons, `amount / N` and `amount * (p / 100)` are exact here. Coercion of `NaN` or other falsy values by `|| 0` is also not modelled; only an absent entry counts as 0.
- JavaScript's dynamic typing is not modelled. This covers non-numeric amounts and `splits` values, a `splits` entry holding `undefined`, non-object or falsy `splits` other than "absent", and the regex tests' coercion of non-string email or mobile values. `splits` is an optional map, so it cannot hold the same key twice.
- `ComputeExpense` reads a method the way `ParseSplitMethod` produces it. A value such as `Other("equal")` is never produced, and it would be refused as an unknown method.
- EqualSharesSumDistinct: the equal shares add up to `amount` only when no UID repeats. The same email listed twice gives a repeated UID. N then counts the repeat while the map holds the UID once (`EqualSharesSum`, `EqualSplitRepeatedParticipant`). This is the source's behaviour and the model keeps it.
- The sum check at line 71 counts every key of `splits`, including keys that are not found UIDs. A share given to an unknown UID therefore passes the check and is lost (`PercentageSplitStrayKey`). This is kept as written. When every key is a found UID, the shares add up to `amount` (`PercentageSharesSumComplete`).
