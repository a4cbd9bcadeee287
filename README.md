# TxTrack transaction ledger, modelled in Dafny

TxTrack is a desktop budgeting app. The user logs a transaction (an amount,
an optional label, and whether it was pre-approved). A pre-approved record
waits 24 hours. Once that window is over it can be categorised as debt paid,
saved, invested or spent, and its amount moves into that counter. A record
that needs approval first goes through an approval question. "Yes" leads to
the same category chooser. "No" shows an alert and closes the modal two
seconds later, and the record stays in the list.

The model has these parts:

- `Ledger` (ledger.dfy): the records and the four counters as values. It
  holds the pure list expressions the application state applies (`find`,
  `filter`, the expiry `map`) and the lemmas about processing and expiry.
- `AppStateContext` (app_state.dfy): the class `AppState`. It holds the six
  state cells (`transactions`, `isDarkMode` and the four counters) and
  `addTransaction`, `processTransaction`, `resetAll`, `toggleDarkMode` and
  the body of the once-a-second expiry tick. Each method is stated against
  the `Ledger` functions.
- `Countdown` (countdown.dfy) and `Decimal` (decimal.dfy): the function
  `calculateRemainingTime`, with the `toString` and `padStart(2, '0')` it
  formats with.
- `LogTransaction` (log_transaction.dfy): the three-step amount, label and
  budget wizard, its amount validation, and the one `addTransaction` call it
  makes.
- `Transactions` (transactions.dfy): the page's split into pre-approved and
  needs-approval lists, the row click handlers, and the modal the current
  selection opens.
- `ApprovalFlow` (approval_modal.dfy) and `CategoryFlow` (category_modal.dfy):
  the approval modal and the category chooser.
  - Each modal's `onClose` is a direct call to the handler that the caller
    passes in: the page's `handleCloseModal`, or the approval modal's nested
    close.
  - The deny timer is kept as a pending due time. A separate method fires it
    later and closes whatever the page shows at that time.
- `Wrappers` (wrappers.dfy): `Option`.

Modelling choices:

- Amounts and counters are integer cents, not JavaScript floats.
- Times are integer milliseconds. `setHours(getHours() + 24)` is `+ 86_400_000`.
- `crypto.randomUUID()` is a fresh-id parameter that must not already be in
  the list.
- `new Date()` is a `now` parameter.
- The record field `label` is called `labelText`, because `label` is a
  reserved word in Dafny.

## Model

| member | source | states |
|---|---|---|
| Ledger.ParseCategory | TxTrack-Electron/src/contexts/AppStateContext.jsx:120-135 | reading the `switch` on the category string: a recognised string names exactly the category it stands for; `None` means no category has that name (the `default` branch) |
| Ledger.CategoryNameRoundTrip | TxTrack-Electron/src/contexts/AppStateContext.jsx:7-12 | each `TransactionCategory` value is recognised as its own category |
| Ledger.Add | TxTrack-Electron/src/contexts/AppStateContext.jsx:100-111 | adding grows the list by exactly one; every earlier record is kept; the last record has the given id, amount, label, flag and creation time, with `isExpired` false; the counters are unchanged |
| Ledger.AddKeepsUnique | TxTrack-Electron/src/contexts/AppStateContext.jsx:100-111 | a fresh id keeps ids unique, and the new id is then in the list |
| Ledger.Find | TxTrack-Electron/src/contexts/AppStateContext.jsx:116-117 | `find` gives nothing exactly when no record has the id; otherwise it gives a record of the list with that id |
| Ledger.FindFirst | TxTrack-Electron/src/contexts/AppStateContext.jsx:116 | `find` gives the record at the first position that carries the id, whether or not ids are unique |
| Ledger.FindAt | TxTrack-Electron/src/contexts/AppStateContext.jsx:116 | with unique ids, `find` gives the record at the position that carries the id |
| Ledger.Remove | TxTrack-Electron/src/contexts/AppStateContext.jsx:138-140 | the `filter` keeps exactly the records whose id differs, and never lengthens the list |
| Ledger.RemoveAt | TxTrack-Electron/src/contexts/AppStateContext.jsx:138-140 | with unique ids, the `filter` drops exactly the one record with the id and keeps the rest in order |
| Ledger.Process | TxTrack-Electron/src/contexts/AppStateContext.jsx:114-141 | after processing, no record carries the id; the records left are exactly the earlier ones with other ids |
| Ledger.ProcessAbsent | TxTrack-Electron/src/contexts/AppStateContext.jsx:116-117 | an id not in the list changes nothing: the list and all four counters stay as they were |
| Ledger.ProcessKnown | TxTrack-Electron/src/contexts/AppStateContext.jsx:119-140 | for a present id and a recognised category: the named counter grows by exactly that record's amount, the other three are unchanged, and the record is removed with the others kept in order |
| Ledger.ProcessUnrecognised | TxTrack-Electron/src/contexts/AppStateContext.jsx:133-140 | for an unrecognised category, no counter changes, yet the record is still removed and the others keep their order |
| Ledger.ProcessPreservesUnique | TxTrack-Electron/src/contexts/AppStateContext.jsx:138-140 | processing keeps ids unique |
| Ledger.ProcessConserves | TxTrack-Electron/src/contexts/AppStateContext.jsx:119-140 | with a recognised category, the counters' total plus the pending amounts stays constant |
| Ledger.ProcessMonotone | TxTrack-Electron/src/contexts/AppStateContext.jsx:119-140 | while amounts are non-negative, no counter ever decreases, and amounts stay non-negative |
| Ledger.ProcessAllShrinks | TxTrack-Electron/src/contexts/AppStateContext.jsx:138-140 | any run of processing steps only ever removes records, never adds or alters one |
| Ledger.ProcessAllTotal | TxTrack-Electron/src/contexts/AppStateContext.jsx:119-140 | processing distinct present ids makes the four-counter total grow by the sum of their amounts, and leaves none of those ids in the list |
| Ledger.Refresh | TxTrack-Electron/src/contexts/AppStateContext.jsx:77-86 | the tick's `map` keeps the length, keeps every field but `isExpired` position by position, and sets each record's `isExpired` (pre-approved or not) to `now >= createdAt + 24h`, the boundary included |
| Ledger.RefreshChangesIff | TxTrack-Electron/src/contexts/AppStateContext.jsx:89-92 | the mapped list differs from the previous one exactly when some stored flag disagrees with the recomputed one |
| Ledger.RefreshIdempotent | TxTrack-Electron/src/contexts/AppStateContext.jsx:75-93 | a second tick at the same instant changes nothing |
| Ledger.RefreshIgnoresStoredFlags | TxTrack-Electron/src/contexts/AppStateContext.jsx:77-86 | the result depends on the stored records only through fields other than `isExpired` |
| Ledger.RefreshPreservesIds | TxTrack-Electron/src/contexts/AppStateContext.jsx:77-86 | the tick keeps ids unique, the pending sum and non-negative amounts |
| Ledger.PreApprovedScenario | TxTrack-Electron/src/contexts/AppStateContext.jsx:75-141 | a $50.00 pre-approved record is not expired one second before the window closes and is expired at the closing instant; categorising it as saved leaves `saved` at 5000 cents and the list empty |
| Decimal.NatToString | TxTrack-Electron/src/contexts/AppStateContext.jsx:174 | `toString` of a whole number is a non-empty digit string, and has a single digit exactly below 10 |
| Decimal.NatToStringValue | TxTrack-Electron/src/contexts/AppStateContext.jsx:174 | the digits of `toString` read back as the number, with no leading zero |
| Decimal.PaddedValue | TxTrack-Electron/src/contexts/AppStateContext.jsx:174 | for any number, `padStart(2, '0')` of its `toString` is a digit string that reads back as the number; it has exactly two characters below 100; from 10 on it is unpadded, so it has no leading zero |
| Decimal.TwoDigitsLength | TxTrack-Electron/src/contexts/AppStateContext.jsx:174 | `padStart(2, '0')` of a number below 100 has exactly two characters |
| Decimal.TwoDigitsValue | TxTrack-Electron/src/contexts/AppStateContext.jsx:174 | a padded number below 100 is two digits that read back as the number |
| Decimal.TwoDigitsOf | TxTrack-Electron/src/contexts/AppStateContext.jsx:174 | a padded number below 100 is its tens digit followed by its units digit |
| Countdown.Split | TxTrack-Electron/src/contexts/AppStateContext.jsx:165-167 | `Math.floor` splitting into hours, minutes and seconds: minutes and seconds are below 60; hours are at most 24 for at most a day; the fields account for the milliseconds to under one second |
| Countdown.Format | TxTrack-Electron/src/contexts/AppStateContext.jsx:174 | for any hours, `formatted` is the hours field, a colon, two minute digits, a colon and two second digits. The hours field is all digits and reads back as hours; it is exactly two characters below 100, and zero-padded only below 10 |
| Countdown.CalculateRemainingTime | TxTrack-Electron/src/contexts/AppStateContext.jsx:158-176 | `total = max(0, createdAt + 24h - now)`; it is 0 exactly when the record is expired; 0 <= minutes, seconds < 60; hours <= 24 when `now >= createdAt`; total lies between the fields' milliseconds and 1000 more; `formatted` is `h:mm:ss` with every field reading back, the hours field at least two digits and exactly two whenever `now >= createdAt` |
| Countdown.CountdownLastSecond | TxTrack-Electron/src/contexts/AppStateContext.jsx:158-176 | one second before expiry the countdown reads `00:00:01` |
| Countdown.CountdownFullWindow | TxTrack-Electron/src/contexts/AppStateContext.jsx:158-176 | at creation the countdown reads `24:00:00` |
| AppStateContext.AppState.constructor | TxTrack-Electron/src/contexts/AppStateContext.jsx:17-22 | starts with no records, all counters at 0 and light mode |
| AppStateContext.AppState.AddTransaction | TxTrack-Electron/src/contexts/AppStateContext.jsx:100-111 | the new state is `Add` of the old one: the new record is appended last, earlier records and all counters are kept, and dark mode is untouched |
| AppStateContext.AppState.ProcessTransaction | TxTrack-Electron/src/contexts/AppStateContext.jsx:114-141 | the new state is `Process` of the old one: a no-op for an unknown id; counters do not decrease while amounts are non-negative; ids stay unique; dark mode is untouched |
| AppStateContext.AppState.ResetAll | TxTrack-Electron/src/contexts/AppStateContext.jsx:144-150 | from any state, records become empty and all four counters 0; dark mode is untouched |
| AppStateContext.AppState.ToggleDarkMode | TxTrack-Electron/src/contexts/AppStateContext.jsx:153-155 | flips the theme flag; it keeps the ledger and so unique ids |
| AppStateContext.ToggleTwice | TxTrack-Electron/src/contexts/AppStateContext.jsx:153-155 | two toggles restore the flag and the ledger |
| AppStateContext.AppState.Tick | TxTrack-Electron/src/contexts/AppStateContext.jsx:75-93 | the list becomes the refreshed one; `changed` holds exactly when some flag was stale; with no change the list is kept as it was; counters and theme are kept |
| LogTransaction.LeadingDigits | TxTrack-Electron/src/pages/LogTransaction.jsx:20 | the digit run `parseFloat` reads is all digits, no longer than the text, starts with the text's first character, is empty exactly when the text does not start with a digit, and ends at the first non-digit |
| LogTransaction.LeadingDigitsPrefix | TxTrack-Electron/src/pages/LogTransaction.jsx:20 | that digit run is a prefix of the text, so it is the longest digit prefix |
| LogTransaction.FractionCents | TxTrack-Electron/src/pages/LogTransaction.jsx:20 | fraction digits are truncated to cents: no digits give 0, one digit counts tens of cents, and two or more give the value of the first two; the cents are positive exactly when a kept digit is not `0` |
| LogTransaction.ParseUnsigned | TxTrack-Electron/src/pages/LogTransaction.jsx:20 | an unsigned number text gives `NaN` exactly when it starts neither with a digit nor with a point and a digit; otherwise the value is positive exactly when some integer digit or kept fraction digit is not `0` |
| LogTransaction.ParseAmount | TxTrack-Electron/src/pages/LogTransaction.jsx:20 | `parseFloat` gives `NaN` exactly when no number starts after the optional sign; with a minus sign the amount is never positive, and without one never negative |
| LogTransaction.ValidAmount | TxTrack-Electron/src/pages/LogTransaction.jsx:19-22 | `isValidAmount` holds exactly when there is no minus sign and some integer digit or kept fraction digit is not `0`, that is, when the parsed number is not `NaN` and is above 0 |
| LogTransaction.ParsePointForm | TxTrack-Electron/src/pages/LogTransaction.jsx:20 | any text of integer digits, a point and fraction digits, with at least one digit, parses to the integer digits' value in units plus the fraction's cents |
| LogTransaction.ParseDigitsForm | TxTrack-Electron/src/pages/LogTransaction.jsx:20 | a text of digits alone parses to their value in whole units |
| LogTransaction.ParseOneFractionDigit | TxTrack-Electron/src/pages/LogTransaction.jsx:19-22 | any digit string `w` followed by a point and a single digit `d` parses to the value of `w` in units plus `d` tens of cents |
| LogTransaction.TypedOneFractionDigit | TxTrack-Electron/src/pages/LogTransaction.jsx:20 | `12.5` parses to 1250 cents |
| LogTransaction.TypedNoWholeDigits | TxTrack-Electron/src/pages/LogTransaction.jsx:20 | `.5` parses to 50 cents |
| LogTransaction.TypedLeadingZeros | TxTrack-Electron/src/pages/LogTransaction.jsx:20 | `007.10` parses to 710 cents |
| LogTransaction.CentsDeviations | TxTrack-Electron/src/pages/LogTransaction.jsx:19-22 | the two places where cents differ from `parseFloat`: `0.001` truncates to 0 cents and is not valid, and `1e2` is read as its mantissa, 100 cents |
| LogTransaction.ParseDecimal | TxTrack-Electron/src/pages/LogTransaction.jsx:19-22 | the text `whole.cc` parses back to its amount in cents, and it is valid exactly when that amount is positive |
| LogTransaction.ParseWhole | TxTrack-Electron/src/pages/LogTransaction.jsx:19-22 | a bare whole number parses to that many units |
| LogTransaction.EmptyIsInvalid | TxTrack-Electron/src/pages/LogTransaction.jsx:19-22 | the empty initial field, a lone point and a lone minus sign are `NaN` and so are not valid |
| LogTransaction.LogTransactionForm.constructor | TxTrack-Electron/src/pages/LogTransaction.jsx:11-13 | the wizard starts at the amount step with empty amount and label |
| LogTransaction.LogTransactionForm.SetAmount | TxTrack-Electron/src/pages/LogTransaction.jsx:92 | typing changes only the amount |
| LogTransaction.LogTransactionForm.SetLabel | TxTrack-Electron/src/pages/LogTransaction.jsx:137 | typing changes only the label |
| LogTransaction.LogTransactionForm.HandleAmountSubmit | TxTrack-Electron/src/pages/LogTransaction.jsx:25-30 | moves to the label step exactly when the amount is valid; otherwise the step is unchanged |
| LogTransaction.LogTransactionForm.HandleLabelSubmit | TxTrack-Electron/src/pages/LogTransaction.jsx:33-36 | always moves to the budget step, whatever the label |
| LogTransaction.LogTransactionForm.GoBack | TxTrack-Electron/src/pages/LogTransaction.jsx:47-53 | label goes back to amount, budget goes back to label, and amount stays at amount |
| LogTransaction.LogTransactionForm.HandleBudgetQuestion | TxTrack-Electron/src/pages/LogTransaction.jsx:39-44 | navigates exactly when the amount is valid, having added one record with the parsed positive amount, the label and the answer; otherwise the ledger is untouched |
| Transactions.PreApproved | TxTrack-Electron/src/pages/Transactions.jsx:15 | holds exactly the pre-approved records of the list |
| Transactions.NeedsApproval | TxTrack-Electron/src/pages/Transactions.jsx:16 | holds exactly the records that are not pre-approved |
| Transactions.PartitionMultiset | TxTrack-Electron/src/pages/Transactions.jsx:15-16 | the two lists are disjoint as multisets, their union is the whole list, and their lengths add up to its length |
| Transactions.PartitionKeepsOrder | TxTrack-Electron/src/pages/Transactions.jsx:15-16 | each list is a subsequence of the whole list, so the original relative order is kept |
| Transactions.ModalFor | TxTrack-Electron/src/pages/Transactions.jsx:123-135 | without a selection there is no modal; a pre-approved selection opens the category chooser and any other opens the approval modal, each on the selected record |
| Transactions.CategoryModalOnlyWhenExpired | TxTrack-Electron/src/pages/Transactions.jsx:79-83 | under the click gating, the category chooser only ever opens on an expired record |
| Transactions.TransactionsPage.constructor | TxTrack-Electron/src/pages/Transactions.jsx:10 | starts with no selection |
| Transactions.TransactionsPage.HandlePreApprovedClick | TxTrack-Electron/src/pages/Transactions.jsx:79-83 | selects the record only if it has expired; otherwise the selection is unchanged |
| Transactions.TransactionsPage.HandleNeedsApprovalClick | TxTrack-Electron/src/pages/Transactions.jsx:111 | always selects the clicked record |
| Transactions.TransactionsPage.HandleCloseModal | TxTrack-Electron/src/pages/Transactions.jsx:24-26 | clears the selection, and so no modal is shown |
| ApprovalFlow.ApprovalModal.constructor | TxTrack-Electron/src/modals/ApprovalModal.jsx:8-9 | both flags start false and no close is pending |
| ApprovalFlow.ApprovalModal.View | TxTrack-Electron/src/modals/ApprovalModal.jsx:76-92 | the denial alert shows exactly while `showApprovalDenied` holds; the nested chooser shows, on this modal's record, exactly while `showCategorization` holds |
| ApprovalFlow.ApprovalModal.HandleApprove | TxTrack-Electron/src/modals/ApprovalModal.jsx:19-21 | opens the nested chooser and changes nothing else |
| ApprovalFlow.ApprovalModal.HandleDeny | TxTrack-Electron/src/modals/ApprovalModal.jsx:23-28 | shows the denial alert and schedules exactly one close at `now + 2000` |
| ApprovalFlow.ApprovalModal.FireCloseTimer | TxTrack-Electron/src/modals/ApprovalModal.jsx:25-27 | a due close is taken off the pending list and clears the page's selection |
| ApprovalFlow.ApprovalModal.HandleHeaderClose | TxTrack-Electron/src/modals/ApprovalModal.jsx:40-41 | closes through the page and changes nothing else (the ledger is outside its frame) |
| ApprovalFlow.ApprovalModal.HandleCategorizationClose | TxTrack-Electron/src/modals/ApprovalModal.jsx:87-90 | hides the nested chooser, then closes the modal through the page |
| ApprovalFlow.DenyThenTimeout | TxTrack-Electron/src/modals/ApprovalModal.jsx:23-28 | denying and then letting the timer run leaves the page with no modal, leaves the ledger unchanged, and keeps the record in the list |
| ApprovalFlow.ApproveLeavesLedger | TxTrack-Electron/src/modals/ApprovalModal.jsx:19-21 | approving opens the chooser and leaves the ledger and theme untouched |
| CategoryFlow.ButtonsBijective | TxTrack-Electron/src/modals/TransactionCategoryModal.jsx:51-66 | the four buttons map one-to-one onto the four categories |
| CategoryFlow.ButtonNameParses | TxTrack-Electron/src/modals/TransactionCategoryModal.jsx:51-66 | each button's category string is recognised by `processTransaction` as that category |
| CategoryFlow.TransactionCategoryModal.constructor | TxTrack-Electron/src/modals/ApprovalModal.jsx:84-91 | a chooser opened from an approval modal works on that modal's record and page |
| CategoryFlow.TransactionCategoryModal.Close | TxTrack-Electron/src/modals/TransactionCategoryModal.jsx:6 | `onClose` clears the page's selection, and hides the parent's nested chooser when there is a parent, keeping its other state |
| CategoryFlow.TransactionCategoryModal.HandleCategorySelect | TxTrack-Electron/src/modals/TransactionCategoryModal.jsx:18-21 | processes exactly this modal's record id with the button's category, so the id leaves the list, and then closes the modal; a parent approval modal's chooser is hidden, and its denial flag and pending closes are kept |
| CategoryFlow.TransactionCategoryModal.HandleHeaderClose | TxTrack-Electron/src/modals/TransactionCategoryModal.jsx:33-34 | closes without processing, so the ledger is unchanged; a parent approval modal's chooser is hidden, and its denial flag and pending closes are kept |
| CategoryFlow.ApproveThenCategorise | TxTrack-Electron/src/modals/ApprovalModal.jsx:84-91 | "Yes" and then a category button processes the record under that category and leaves the page with no modal |

## Left out

- Loading and saving through `localStorage` (AppStateContext.jsx lines 25-70, `utils/Storage.js`) and the system dark-mode query. These are browser storage and media-query calls.
- Routing, layout, theming, the splash screen and the storage-availability gate in `App.jsx`. These are UI framework calls.
- The Electron main process, the preload scripts and the build configuration. They deal with windows, IPC, the file system and packaging.
- Currency and date formatting, and rendering. These are `Intl.NumberFormat`, `date-fns` and the chart library.
- Scheduling by `setInterval`/`setTimeout` and React's batching of state updates. The tick body, each handler and the deny timer's callback are modelled as separate steps that run in sequence.
- The stale closure through which `processTransaction` reads `transactions` (`find` on the rendered list, `filter` on the latest one). The model reads one current list for both.
- Floating-point amounts. Amounts and counters are integer cents, and sums are exact.
- ParseAmount: only the decimal forms a number input produces are parsed (optional sign, digits, optional point and digits). It does not model exponents, `Infinity`, leading whitespace, or digits below one cent, which are truncated.
- ValidAmount: a positive amount below one cent, such as `0.001`, is not valid here, although `parseFloat` gives a positive number and the wizard would go on. An exponent form such as `1e2` is read as its mantissa: 1, that is 100 cents, where `parseFloat` gives 100. `CentsDeviations` states both.
- Local-time `setHours` across daylight-saving changes. The window is a fixed 86,400,000 ms.
- `createdAt` as an ISO string. It is kept as a millisecond count.
- CalculateRemainingTime: promises `hours <= 24`, and a two-digit hours field, only when `now >= createdAt`. A clock set back before a record's creation gives a longer remainder, which the source also does not bound; `formatted` is still characterised for any hours.
- TransactionsPage.HandleNeedsApprovalClick: requires the record not to be pre-approved, since that list renders only such records.
- Transactions.TransactionsPage: the opacity animation state and its timer are rendering, and are not modelled.
