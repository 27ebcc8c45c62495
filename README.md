# Bankist ledger model

A Dafny model of the logic inside the Bankist demo banking page (`script.js`). The
page holds a few accounts in memory. Each account has an owner, a PIN, an interest
rate and a ledger of signed movements with one timestamp each. The model covers:

- **Handles.** Each owner gets a login handle made of the lower-cased initials of the
  words in their name ("Jessica Davis" becomes `jd`). Accounts are found by handle,
  and the first match wins.
- **Ledger figures.** The balance, the inflow and outflow totals, the interest (paid
  per deposit, and only when a deposit earns at least 1) and the loan rule (a loan is
  granted when some movement is at least 10% of it).
- **Movement list.** The list can be shown in recorded order or sorted ascending, and
  each row carries a relative date label ("Today", "Yesterday", "N days ago", or a
  formatted date).
- **Session.** Login, transfer, loan request and completion, account closing and the
  sort toggle all act on one page session. A five-minute countdown (`MM:SS`) hides the
  app when it reaches zero, but keeps the current account. A refused transfer, a
  refused loan request and a paid-out loan restart the countdown. A successful login
  and an accepted transfer restart it too, unless the display refresh throws first.
  An approved loan request restarts nothing until its loan is paid out. A handler
  that aborts for lack of a current account restarts nothing.

Modules:

| module | file | form |
|---|---|---|
| `Wrappers` | `wrappers.dfy` | `Option` |
| `Digits` | `digits.dfy` | decimal rendering and `padStart(2, '0')` |
| `Countdown` | `countdown.dfy` | the countdown label |
| `Dates` | `dates.dfy` | relative date labels |
| `Handles` | `handles.dfy` | handle derivation and first-match search |
| `Ledger` | `ledger.dfy` | balance, summary, interest and the loan rule |
| `Display` | `display.dfy` | the rows of the movement list |
| `Accounts` | `accounts.dfy` | the page state, as classes |

The pure parts are functions with lemmas. The page state is imperative:

- `Accounts.Account` is a class whose movement arrays and cached balance are updated
  in place.
- `Accounts.Bank` holds the account list, the current account reference, the
  countdown, the visibility of the app, the sort toggle and the queue of approved
  loans that are waiting for their timeout.

Each handler is a method whose `ensures` states the whole new state.

A few behaviours of the code are kept as written, and differ from what a reader
might expect:

- Neither the countdown reaching zero nor closing an account clears the current
  account. Only the app is hidden, so after either one a transfer or loan still acts
  on the old account. The model follows the code here, not its comments, which call
  this logging the user out (script.js:245 and 258).
- A transfer compares the amount with the cached `balance` property. That property
  is refreshed only when the account is displayed (login, transfer, loan
  completion).
- A loan is paid into whichever account is current when its 1.5 s timeout fires.
  That may not be the account that asked for it.
- Closing an account does not stop the countdown.
- The sort toggle is not reset by later refreshes, so the next click after a
  transfer may show the list unsorted again.
- A zero movement is labelled a withdrawal.
- Every handler that refreshes the display stops early for an account without a
  deposit, because the summary throws. The balance has been recomputed by then, but
  the countdown is not restarted.
- For movements `[50, -20]`, the loan rule grants every loan up to 500 (50 is at
  least 10% of it) and refuses 501. `Ledger.LoanExamples` proves exactly these
  boundaries.

## Model

| member | source | states |
|---|---|---|
| `Ledger.ReduceNoSeed` | script.js:149 | a seedless `reduce` fails exactly on an empty array, and otherwise equals the seeded sum |
| `Ledger.Balance` | script.js:141 | definition: the sum of the movements seeded with 0; `Ledger.BalanceAfterAppend`, `Ledger.BalanceSplits` and `Ledger.InMinusOutIsBalance` state its properties |
| `Ledger.BalanceAfterAppend` | script.js:141 | appending a movement changes the balance by exactly that movement |
| `Ledger.Deposits` | script.js:148 | the filtered list holds exactly the positive movements |
| `Ledger.DepositsKeepCounts` | script.js:148 | the filtered list keeps each positive movement as many times as it occurs and nothing else, so it is the positive part of the movements as a multiset |
| `Ledger.DepositsAppend` | script.js:148 | filtering a concatenation gives the filtered parts concatenated, so the deposits keep their recorded order |
| `Ledger.Withdrawals` | script.js:156 | the filtered list holds exactly the negative movements |
| `Ledger.WithdrawalsKeepCounts` | script.js:156 | the filtered list keeps each negative movement as many times as it occurs and nothing else |
| `Ledger.WithdrawalsAppend` | script.js:156 | filtering a concatenation gives the filtered parts concatenated, so the withdrawals keep their recorded order |
| `Ledger.PositiveBalanceHasDeposit` | script.js:141 | a ledger whose balance is positive has a deposit |
| `Ledger.SumAppend` | script.js:141 | the sum of a concatenation is the sum of the parts |
| `Ledger.BalanceSplits` | script.js:139-161 | the balance is the deposits' sum plus the withdrawals' sum |
| `Ledger.TotalIn` | script.js:148-153 | definition: the guarded seedless sum of the deposits; `Ledger.Totals`, `Ledger.TotalsPositive` and `Ledger.InMinusOutIsBalance` state its properties |
| `Ledger.TotalOut` | script.js:156-161 | definition: the absolute value of the guarded seedless sum of the withdrawals; `Ledger.Totals`, `Ledger.TotalsPositive` and `Ledger.InMinusOutIsBalance` state its properties |
| `Ledger.Totals` | script.js:146-161 | inflow is the deposits' sum and outflow is minus the withdrawals' sum (each 0 when there are none), and both are non-negative |
| `Ledger.TotalsPositive` | script.js:148-161 | inflow is positive if and only if some movement is positive, and outflow is positive if and only if some movement is negative |
| `Ledger.InMinusOutIsBalance` | script.js:139-161 | the summary agrees with the balance: inflow minus outflow equals the balance |
| `Ledger.DepositInterests` | script.js:164 | the per-deposit interest list has one entry per deposit |
| `Ledger.InterestAsWritten` | script.js:164 | definition: filter, map and seedless `reduce`, with None for the throw; `Ledger.InterestAsWrittenAgrees` and `Ledger.InterestAsWrittenThrows` state its properties |
| `Ledger.Interest` | script.js:164 | definition: the intended interest, adding each deposit's interest to a sum seeded with 0; `Ledger.InterestIsSumOfDepositInterests`, `Ledger.InterestNonNegative`, `Ledger.InterestBounded` and `Ledger.InterestOfAppended` state its properties |
| `Ledger.InterestIsSumOfDepositInterests` | script.js:164 | the intended interest equals the sum of the per-deposit interests of the filtered deposits |
| `Ledger.InterestAsWrittenAgrees` | script.js:164 | the summary's interest as written throws exactly when no movement is positive, and otherwise equals the intended interest |
| `Ledger.InterestAsWrittenThrows` | script.js:164 | concrete case: an account whose only movement is a withdrawal makes the written interest throw, while the intended interest is 0 |
| `Ledger.InterestWithoutDeposits` | script.js:163-164 | an account without deposits earns interest 0, whatever the rate |
| `Ledger.InterestNonNegative` | script.js:164 | interest is never negative |
| `Ledger.InterestBounded` | script.js:164 | with a non-negative rate, interest is at most `rate`% of the total deposits |
| `Ledger.InterestOfAppended` | script.js:164 | a new deposit adds `deposit * rate / 100` to the interest when that is at least 1, and adds nothing otherwise; a withdrawal adds nothing |
| `Ledger.InterestExample` | script.js:163-164 | deposits 1000 and 1.2 at 1.2% earn 12: the second deposit's 0.0144 is below the threshold |
| `Ledger.LoanAmount` | script.js:325 | `Math.floor`: the loan is the whole number at most the input and above the input minus 1 |
| `Ledger.SomeAtLeast` | script.js:328 | `some(mov => mov >= t)` is true if and only if some movement is at least `t` |
| `Ledger.LoanApproved` | script.js:328 | definition: a positive loan with some movement at least 10% of it; `Ledger.LoanRuleBound`, `Ledger.LoanRuleMonotone` and `Ledger.LoanExamples` state its properties |
| `Ledger.LoanRuleBound` | script.js:325-328 | a loan is granted if and only if it is positive and at most ten times some movement |
| `Ledger.LoanRuleMonotone` | script.js:328 | if a loan is granted, every smaller positive loan is granted too |
| `Ledger.LoanExamples` | script.js:325-328 | with movements [50, -20], requests of 500 and 500.9 (floored to 500) are granted, while 501 and 0.5 (floored to 0) are refused |
| `Display.KindOf` | script.js:125 | definition: a deposit exactly when the amount is positive; `Display.RowsKeepDates` states it for every row |
| `Display.Insert` | script.js:115 | inserting keeps every element and adds one |
| `Display.InsertAscending` | script.js:115 | inserting into an ascending list keeps it ascending |
| `Display.SortAscending` | script.js:115 | the sorted copy is a permutation of the movements in ascending order |
| `Display.InsertEntry` | script.js:115 | inserting an entry keeps every entry and adds one |
| `Display.InsertEntryAscending` | script.js:115 | inserting an entry into a list ascending by amount keeps it ascending |
| `Display.SortEntries` | script.js:115 | sorting (amount, date) entries gives a permutation ascending by amount |
| `Display.Entries` | script.js:118-120 | entry `i` pairs movement `i` with date `i` |
| `Display.SortEntriesAmounts` | script.js:115 | sorting entries and dropping the dates gives the sorted amounts |
| `Display.AmountsOfEntries` | script.js:118-120 | pairing movements with dates and dropping the dates gives the movements back |
| `Display.Rows` | script.js:115-125 | definition of the intended rows: each movement sorted together with its own date; `Display.RowsKeepDates` and `Display.RowsOrder` state its properties |
| `Display.RowsKeepDates` | script.js:115-134 | the intended rows are numbered from 1; a row is a deposit if and only if its amount is positive; and the rows show each (movement, own date) pair exactly once |
| `Display.RowsOrder` | script.js:115-125 | unsorted, row `i` is movement `i` with its own date; sorted, the row amounts are the ascending copy |
| `Display.RowsAsWritten` | script.js:115-125 | definition of the rows as written: the amounts, sorted when asked, numbered from 1, with row `i` taking the date at position `i`; `Display.RowsAsWrittenAgree` and `Display.SortedRowsMisdated` state what that means |
| `Display.RowsAsWrittenAgree` | script.js:115-120 | the written rows and the intended rows have the same numbers, kinds and amounts; they differ only in dates, and not at all when unsorted |
| `Display.SortedRowsMisdated` | script.js:115-120 | concrete case: for movements [2, 1] dated 10 and 20, the written sorted view shows 1 with date 10 (the date of 2), while the intended view shows it with date 20 |
| `Dates.DaysPassed` | script.js:85-86 | the rounded day count `d` satisfies `d*day <= elapsed + day/2 < (d+1)*day` |
| `Dates.DaysPassedUnique` | script.js:85 | that count is the unique such number, and it does not depend on which instant is later |
| `Dates.Label` | script.js:89-97 | definition: the if-chain on the day count; `Dates.LabelByElapsed` states it in elapsed time |
| `Dates.FormatMovementDate` | script.js:83-98 | definition: the label of the rounded day count, with the formatted date as a parameter; `Dates.LabelByElapsed` and `Dates.DaysAgoText` state its properties |
| `Dates.LabelByElapsed` | script.js:85-97 | "Today" if and only if under half a day has passed; "Yesterday" if and only if under 1.5 days; "N days ago" (2 <= N <= 7) if and only if under 7.5 days; otherwise the formatted date |
| `Dates.DaysAgoText` | script.js:93-94 | two to seven days read "N days ago" with the single digit N |
| `Digits.Decimal` | script.js:253-254 | a number renders as a non-empty run of digits, which is one digit long if and only if the number is below 10 |
| `Digits.DecimalRoundTrip` | script.js:253-254 | reading the rendered digits back gives the number |
| `Digits.PadStart2` | script.js:253-254 | `padStart(2, '0')` keeps the string as a suffix, adds only zeros, and makes the result at least two characters long |
| `Digits.TwoDigits` | script.js:253-254 | a number below 100 pads to exactly two digits that read back as that number |
| `Countdown.ParseFields` | script.js:256 | `MM:SS` built from two two-digit fields is five characters long with the colon in the middle, and reads back as minutes*60 + seconds |
| `Countdown.TimerText` | script.js:253-256 | definition: padded minutes, a colon and padded seconds; `Countdown.TimerTextRoundTrip` and `Countdown.TimerTextEnds` state its properties |
| `Countdown.TimerTextRoundTrip` | script.js:253-256 | every time below 100 minutes shows as `MM:SS` and reads back as the same number of seconds |
| `Countdown.TimerTextEnds` | script.js:248-256 | the countdown's first label is `05:00` and its last is `00:00` |
| `Handles.Lower` | script.js:199 | lower-casing keeps the length |
| `Handles.Split` | script.js:199 | `split(' ')` gives at least one piece, and no piece contains a space |
| `Handles.SplitJoin` | script.js:199 | joining the pieces with spaces gives the original string back |
| `Handles.InitialsAreWordStarts` | script.js:199 | the first letters of the pieces are exactly the non-space characters that start the string or follow a space |
| `Handles.WordStartsChars` | script.js:199 | the word starts are characters of the string, none of them a space, and there are at most as many as the string is long |
| `Handles.LowerHasNoCapitals` | script.js:199 | a lower-cased string holds no ASCII capital |
| `Handles.Handle` | script.js:199 | definition: lower-case, split on spaces, first letters joined; `Handles.HandleShape`, `Handles.HandleOfWords` and the two examples state its properties |
| `Handles.HandleShape` | script.js:199 | a handle is the word starts of the lower-cased name; it holds no space and no capital, and is no longer than the name |
| `Handles.LowerAppend` | script.js:199 | lower-casing distributes over concatenation |
| `Handles.LowerKeepsSpaces` | script.js:199 | lower-casing neither adds nor removes spaces |
| `Handles.WordStartsAppend` | script.js:199 | word starts distribute over concatenation, given whether the right part starts a word |
| `Handles.WordStartsOfWord` | script.js:199 | a non-empty word without spaces has exactly its first letter as a word start |
| `Handles.HandleOfWords` | script.js:199 | a name made of non-empty words joined by single spaces gets the lower-cased first letter of each word, in order |
| `Handles.HandleExampleJd` | script.js:197-199 | "Jessica Davis" gets the handle `jd` |
| `Handles.HandleExampleJs` | script.js:199 | "Jonas Schmedtmann" gets the handle `js` |
| `Handles.FindIndex` | script.js:362 | `findIndex` is -1 if and only if the handle is absent; otherwise it is the first position that holds the handle |
| `Accounts.Account.constructor` | script.js:198-201 | a new account holds the given fields, has no handle yet and no cached balance |
| `Accounts.CreateUserNames` | script.js:198-201 | every account's handle becomes the handle of its owner's name, and nothing else changes |
| `Accounts.HandlesOf` | script.js:212 | the handle list matches the accounts position by position |
| `Accounts.Position` | script.js:362 | the position of an account object is -1 if and only if it is not listed; otherwise it is the first position holding that very object |
| `Accounts.FirstHolderPosition` | script.js:362 | when the account is the first holder of its handle, its position by identity equals `findIndex` by handle |
| `Accounts.SummaryShown` | script.js:164 | `updateUI` completes if and only if the account has a deposit |
| `Accounts.SummaryShownExactly` | script.js:164-172 | `updateUI` completes exactly when the as-written interest has a value |
| `Accounts.SpliceOne` | script.js:365 | `splice(start, 1)` removes the element at an in-range start, removes the last element for -1, and removes nothing past the end; it never adds an element |
| `Accounts.Bank.constructor` | script.js:198-204 | a fresh page has every handle assigned, no current account, no countdown, the app hidden, the list unsorted and no pending loans |
| `Accounts.Bank.Lookup` | script.js:212 | `find` by handle gives null if and only if no account has the handle; otherwise it gives the first account with that handle |
| `Accounts.Bank.IndexOf` | script.js:362 | `findIndex` by handle gives -1 if and only if no account has the handle; otherwise it gives the first position of an account with that handle |
| `Accounts.Bank.StartLogOut` | script.js:246-277 | a fresh countdown shows `05:00` at once and leaves 299 seconds for the next tick |
| `Accounts.Bank.Tick` | script.js:251-267 | a tick shows the time left as `MM:SS` and counts down by one; when it shows zero it stops the interval and hides the app |
| `Accounts.Bank.RunDown` | script.js:251-273 | left alone, a running countdown ticks once per remaining second plus once for `00:00`, and then the app is hidden and the interval stopped |
| `Accounts.Bank.Login` | script.js:207-243 | with the intended (non-throwing) summary: on a matching handle and PIN, the account becomes current, its balance is recomputed, the countdown restarts and the app is shown; otherwise nothing changes |
| `Accounts.Bank.LoginAsWritten` | script.js:207-243 | as written: even when the PIN is wrong, the named account (or none) becomes current, with its stale cached balance; on a match the balance is recomputed, and the countdown restarts and the app is shown only if the account has a deposit, since otherwise the summary throws first |
| `Accounts.Bank.TransferAllowed` | script.js:297 | definition: the four conditions of the transfer test, against the cached balance; `Accounts.Bank.Transfer` accepts exactly when it holds |
| `Accounts.Bank.Transfer` | script.js:286-319 | accepted if and only if the amount is positive, the current account's cached balance covers it, and the receiver exists and is someone else; then one dated movement each way, with balances moving by minus and plus the amount; refused, no ledger changes; a positive amount with no current account aborts; a refusal restarts the countdown, and so does an acceptance unless the sender has no deposit left (the summary throws), which a fresh cached balance rules out |
| `Accounts.Bank.Pay` | script.js:297-307 | the accepted branch: one withdrawal for the sender and one deposit for the receiver, each with its own date, and the sender's balance is recomputed |
| `Accounts.Bank.RequestLoan` | script.js:322-354 | the floored loan is queued if and only if the rule grants it; a refusal restarts the countdown; no ledger changes |
| `Accounts.Bank.CompleteLoan` | script.js:330-343 | the oldest queued loan is paid into the account current at that moment, as one dated movement; that account's balance grows by the loan, it has a deposit so the summary does not throw, and the countdown restarts |
| `Accounts.Bank.Close` | script.js:357-375 | on the current account's own handle and PIN, the current account itself is removed (the others keep their order) and the app is hidden; if it is no longer listed, nothing is removed, even when another account shares its handle; otherwise nothing changes |
| `Accounts.Bank.CloseAsWritten` | script.js:357-375 | as written: when the handle is no longer in the list, `splice(-1, 1)` removes the last account, which belongs to someone else |
| `Accounts.Bank.ToggleSort` | script.js:377-387 | corrected view: the toggle flips and the rows are the current account's movements in the new order, each with its own date; with no current account nothing changes |
| `Accounts.Bank.ToggleSortAsWritten` | script.js:377-387 | as written: the toggle flips and the rows show the amounts in the new order, with row `i` taking the date recorded at position `i`; with no current account nothing changes |
| `Accounts.WrongPinTransfer` | script.js:212-215 | a failed login for an account with a cached balance, followed by a transfer that this balance covers, debits that account |

## Left out

- DOM output is not modelled: labels, the welcome text, opacity styles, alerts, input
  clearing and focus. So is the `afterbegin` insertion, which shows the rows
  bottom-up. The model keeps the values the page shows and the app's visibility.
- `Intl.NumberFormat` and `Intl.DateTimeFormat` are not modelled. A formatted date is
  a parameter (`formatted`) of `Dates.FormatMovementDate`, and currency and locale are
  opaque strings.
- The wall clock (`new Date()`) is a parameter. Movement dates are whole millisecond
  timestamps, not ISO strings, and `displayBalanceDate` is not modelled.
- Timers are not modelled as real time. `setInterval` is one `Tick` per call, and each
  `setTimeout` for a loan is one `CompleteLoan`, in request order.
- Amounts are exact reals, not IEEE-754 doubles, so rounding in sums and
  percentages is not modelled.
- Form inputs are not coerced from strings: the model never produces NaN or an empty
  string as a number. Amounts and PINs arrive as numbers, and the loan amount is
  floored with `Math.floor`.
- `toLowerCase` is modelled only on ASCII capitals.
- The seed accounts of `script.js:10-50` are not modelled as data. The handle examples
  use two of their owners.
- `Dates.DaysPassed` is stated for the distance between two timestamps. An invalid
  date is not modelled.
- `Display.SortEntries` does not state in which order entries of equal amount end up
  (stability). The written sort orders plain numbers, where that order cannot be seen.
- `Accounts.WrongPinTransfer` is a consequence of finding 3 below rather than an
  operation of the page.

## Findings

| source | as written | input that shows it | evidently intended | confidence | as-written member | corrected member |
|---|---|---|---|---|---|---|
| script.js:164 | the interest `reduce` has no seed, so it throws a TypeError when the account has no deposit; the handler that called `updateUI` then stops before restarting the countdown (`Accounts.Bank.LoginAsWritten`, `Accounts.Bank.Transfer`) | an account whose movements are `[-100]` | interest 0 when there are no deposits, as for inflow at script.js:148-153 | high, not executed; not reachable from the seed accounts of script.js:10-50, which all have deposits and only gain movements | `Ledger.InterestAsWritten` | `Ledger.Interest` |
| script.js:115-120 | sorting sorts a copy of the amounts, but row `i` still takes `movementsDates[i]`, so dates follow positions rather than movements | movements [2, 1] dated day 10 and day 20, sorted | each movement shown with its own date | high, not executed | `Display.RowsAsWritten` | `Display.Rows` |
| script.js:212-215 | `currentAccount` is assigned the lookup result before the PIN is checked, so a failed login switches the session to the named account (or to none) | `js` logged in after `jd` on the same page; then handle `jd` with a wrong PIN; then a transfer to `js` | a failed login leaves the session as it was | high, not executed | `Accounts.Bank.LoginAsWritten` | `Accounts.Bank.Login` |
| script.js:362-365 | if the current account is no longer in the list, `findIndex` gives -1 and `splice(-1, 1)` removes the last account | two accounts; the first closes its account; its credentials are submitted to the (hidden) close form again | the current account itself is removed, and nothing when it is already gone | medium (the form is hidden after the first close), not executed | `Accounts.Bank.CloseAsWritten` | `Accounts.Bank.Close` |
