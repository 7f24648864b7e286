# Leave-balance ledger of the time-off tracker

This project models the leave-balance ledger of a browser-based time-off tracker. Each
user profile keeps three counters: `totalDays` (the base allocation given by the user's
job level), `usedDays` and `availableDays`. Beside the profile sit two record lists: the
user's time-off entries, each with a day count, and the user's days-adjustment log, each
adjustment with a signed amount and an `operation` label (`'add'` or `'subtract'`).

The application keeps these numbers in step by hand:

- requesting time off moves the span's day count from available to used and logs an entry;
- cancelling an entry moves its days back and removes it;
- editing an entry moves the difference between its new and old day count;
- an adjustment moves `availableDays` by a signed, possibly fractional, amount and logs it;
- sign-up writes a profile whose total and available days come from a fixed job-level
  table;
- the profile page resets `totalDays` from the same table.

The dashboard and the team roster derive a usage ratio and a net-adjustment line from the
same data.

The model has two layers:

- `LedgerSpec` describes the ledger as a value and each operation as a function from the
  old state to the new one. The lemmas there prove the two invariants the application
  relies on:
  - balance: `availableDays == totalDays - usedDays + (additions - subtractions)`;
  - usage: `usedDays` is the sum of the entries' day counts.

  They also prove round trips, worked examples and a counterexample.
- `LedgerStore.Ledger` is a class whose methods perform the same steps in place, each one
  proved to produce exactly the state the matching function gives. `AddDays.AddDaysForm`
  (the adjustment dialog) and `Registration.Directory` (accounts and profiles at sign-up)
  are built on it.

Dates are whole-day ordinals, and a missing date is `None`. The counters are `real`,
because adjustments may be half days. Every store write is assumed to succeed.

Two behaviours of the code stay visible in the model:

- The usage ratio divides by `totalDays + net` without a guard (Employees.js:163-165,
  Dashboard.js:312), so the model defines the ratio only for a non-zero denominator.
- The profile page's job-level change rewrites `totalDays` and leaves `availableDays`
  alone (Profile.js:44-48). `LedgerSpec.SetJobLevelBreaksBalance` shows that this breaks
  the balance invariant.

## Model

| member | source | states |
|---|---|---|
| DayCount.CalculateDays | src/components/Dashboard.js:130-135 | The day count is never negative, and it is zero exactly when the start or the end date is missing. |
| DayCount.CountsTheSpan | src/components/Dashboard.js:132-134 | For two dates in order, the count equals the number of calendar days in the inclusive span, and the span contains both dates. |
| DayCount.CountIsSymmetric | src/components/Dashboard.js:132-134 | Swapping the dates does not change the count. Two present dates give at least 1. A single-day span gives 1. |
| DayCount.CountExamples | src/components/EditTimeOffModal.js:42-47 | The edit dialog's copy of the count gives 1 for the same day, 3 for 2025-01-01..2025-01-03, and 0 when a date is missing. |
| AdjustmentLog.Filter | src/components/Dashboard.js:218-223 | An adjustment is in the filtered log exactly when it is in the log and carries the given operation label. The filtered log is never longer than the log. |
| AdjustmentLog.FilterKeepsCounts | src/components/Dashboard.js:218-223 | Each adjustment with the label occurs in the filtered log as often as in the log, and every other adjustment occurs zero times, so repeated adjustments are summed repeatedly. |
| AdjustmentLog.SumAbsDays | src/components/Employees.js:83-85 | The sum of magnitudes is never negative, and it is zero exactly when every amount is zero. |
| AdjustmentLog.NetAdjustmentsAppend | src/components/Dashboard.js:217-227 | Appending one adjustment changes the totals as follows. `'add'` raises additions by its stored amount. `'subtract'` raises subtractions by its magnitude. Any other label changes neither. The net moves by the corresponding signed amount. |
| AdjustmentLog.NetAdjustmentsBasics | src/components/Employees.js:78-88 | An empty log nets to 0. Subtractions are never negative, so the net never exceeds the additions. |
| AdjustmentLog.NetAdjustmentsExample | src/components/Dashboard.js:217-227 | The log +2 add, -0.5 subtract, +1 add nets to 2.5. |
| JobLevels.Find | src/components/auth/SignUp.js:55 | The lookup returns nothing exactly when no row has the title. Otherwise it returns the first row with that title. |
| JobLevels.SignUpTitlesDistinct | src/components/auth/SignUp.js:23-30 | The six titles of the table are pairwise distinct. |
| JobLevels.SignUpTableShape | src/components/auth/SignUp.js:23-30 | The table has six distinct titles, each worth 20, 25 or 30 days. Looking up any of them returns exactly its own row. |
| JobLevels.TablesAgree | src/components/Profile.js:7-14 | The profile page's table equals the sign-up table, so both pages resolve every title alike. |
| JobLevels.FindExamples | src/components/auth/SignUp.js:23-30 | Associate resolves to 20 days and Managing Director to 30. The empty title is not found. |
| LedgerSpec.NewProfileConsistent | src/components/auth/SignUp.js:61-71 | A new profile has the given name and email, total = available = the level's days, 0 used and no entries or adjustments. It satisfies both invariants and stores `isManager` as chosen. |
| LedgerSpec.CheckSpanAccepts | src/components/Dashboard.js:138-148 | A request is refused exactly when a date is missing, the reason is empty, or the end is before the start. A missing date or an empty reason is reported as missing fields, and an end before the start with both dates and a reason present as end-before-start. An accepted span counts end - start + 1 days. |
| LedgerSpec.RequestEffect | src/components/Dashboard.js:137-168 | A request is refused exactly when the checks fail, with the error the checks report. An accepted request appends one entry holding the span's count (at least 1). `usedDays` rises by that count, and `availableDays + usedDays` does not change. Name, email, manager flag, job level, total and adjustments stay as they were. Both invariants are kept. |
| LedgerSpec.CancelEffect | src/components/Dashboard.js:190-203 | With no entry selected, cancel changes nothing. Otherwise it gives the entry's days back to available, takes them from used, and removes only that entry. No other field changes. Each invariant is kept on its own, so the usage invariant survives even in an unbalanced ledger. |
| LedgerSpec.RequestThenCancel | src/components/Dashboard.js:154-203 | Cancelling the entry a request just appended restores the whole ledger exactly. |
| LedgerSpec.EditEffect | src/components/EditTimeOffModal.js:49-81 | An edit is refused exactly when the checks fail, with the error the checks report. An accepted edit stores the recounted days in that entry and leaves the other entries alone. Used rises and available falls by the difference from the stored count, so their sum is unchanged. An edit to a span of the same length leaves both counters alone. No profile field other than the two counters and the entries changes. Both invariants are kept. |
| LedgerSpec.EditExample | src/components/EditTimeOffModal.js:60-81 | Editing a 3-day entry to 5 days adds 2 to used and takes 2 from available. Editing it to 1 day does the reverse. |
| LedgerSpec.AdjustChecks | src/components/AddDaysModal.js:35-45 | A blank amount is refused as missing fields. NaN, 0 and negative amounts are refused as an invalid amount. Any positive amount is accepted, fractional amounts included. |
| LedgerSpec.AdjustEffect | src/components/AddDaysModal.js:47-66 | An accepted adjustment changes only `availableDays`, by +amount for add and -amount for subtract. It logs that signed amount with the operation's label, and the net of the log moves by the same amount. Both invariants are kept. |
| LedgerSpec.AdjustExample | src/components/AddDaysModal.js:47-66 | Subtracting 1.5 days takes 1.5 off available and logs -1.5 under `'subtract'`. |
| LedgerSpec.SetJobLevelEffect | src/components/Profile.js:42-53 | An unknown title is refused with no change. Otherwise the page sets `jobLevel` and sets `totalDays` to the table's days, and every other field, counters and records included, stays as it was. The balance invariant survives exactly when the new days equal the old total. Applying the same level twice is the same as applying it once. |
| LedgerSpec.SetJobLevelBreaksBalance | src/components/Profile.js:44-48 | Counterexample: an Associate (20 days) promoted to Managing Director keeps 20 available against a total of 30, so the balance invariant no longer holds. |
| LedgerStore.Ledger.SignUpInit | src/components/auth/SignUp.js:61-71 | The new ledger is the sign-up profile and satisfies both invariants. |
| LedgerStore.Ledger.Request | src/components/Dashboard.js:137-168 | The in-place request leaves exactly the state the request function gives. A refused request changes nothing. |
| LedgerStore.Ledger.Cancel | src/components/Dashboard.js:190-214 | The in-place cancel leaves exactly the state the cancel function gives. |
| LedgerStore.Ledger.Edit | src/components/EditTimeOffModal.js:49-81 | The in-place edit leaves exactly the state the edit function gives. A refused edit changes nothing. |
| LedgerStore.Ledger.Adjust | src/components/AddDaysModal.js:35-66 | The in-place adjustment leaves exactly the state the adjust function gives. A refused adjustment changes nothing. |
| LedgerStore.Ledger.SetJobLevel | src/components/Profile.js:42-53 | The in-place job-level change leaves exactly the state the job-level function gives. An unknown title changes nothing. |
| AddDays.AddDaysForm.constructor | src/components/AddDaysModal.js:30-33 | The dialog opens with a blank amount, an empty reason, type `'bonus'` and operation `'add'`. |
| AddDays.AddDaysForm.Close | src/components/AddDaysModal.js:82-88 | Closing resets the form to a blank amount, an empty reason, type `'bonus'` and operation `'add'`. |
| AddDays.AddDaysForm.Submit | src/components/AddDaysModal.js:35-80 | Submitting applies the adjustment function to the form's fields. On success the form is reset. On refusal neither the form nor the ledger changes. |
| Registration.Directory.SignUp | src/components/auth/SignUp.js:41-83 | A missing email, password, name or job level creates nothing. Otherwise an account is created first. With a title not in the table, no profile is written, so the account exists without a profile. With a known title, a fresh profile is written under the new id, holding the sign-up counters. |
| Views.UsageRatioOfBalanced | src/components/Employees.js:163-165 | When the balance invariant holds, the ratio's denominator equals used + available. The ratio is used / (used + available), which lies between 0 and 1 when both counters are non-negative. |
| Views.UsageRatioExample | src/components/Dashboard.js:312 | 10 days used of 20, with no adjustments, is a ratio of 0.5. |
| Views.NetLinePrefix | src/components/Employees.js:136-148 | There is no net line for an empty log. The prefix is `'+'` exactly when additions - subtractions >= 0, and empty exactly when the net is negative. |
| Views.AddButtonEnabled | src/components/Dashboard.js:389 | The time-off button is enabled exactly when a profile is loaded and its available balance is above 0. |
| Views.GateIsSoft | src/components/Dashboard.js:137-157 | The gate is only advisory. With the button enabled, a request longer than the available balance is accepted and leaves a negative balance. |

## Left out

- Firestore and Firebase Auth calls are not modelled; each operation updates the ledger directly and every write succeeds.
- The two separate writes per operation are not modelled as able to fail independently, and neither is the resulting partial update.
- Last-write-wins races between sessions are not modelled.
- Identity-provider failures are not modelled: a duplicate email or a weak password never rejects a sign-up here.
- The team roster's concurrent per-employee fetches are not modelled; the roster's ratio and net line are the functions in `Views`, applied to one ledger.
- Dates are whole-day ordinals; the millisecond `Date` difference, its rounding up and time-zone or daylight-saving effects are not modelled.
- `parseFloat` is not modelled: the amount field is blank, a number, or NaN (`AmountField`).
- Display formatting (`Math.round`, `toFixed`, percent scaling, date formatting) and all rendering, routing, toasts, layout, theme, sign-in and configuration are not modelled.
- The hard-coded holiday list is display data only and is not modelled.
- Dashboard.js:237 computes a `remainingDays` value that is never shown; it is not modelled.
- Record ids, owner ids, timestamps and the store's query ordering are not modelled. An entry is chosen by its position in the user's list, and a new entry is appended at the end.
- Views.UsageRatio: a zero denominator is excluded by its precondition; the code divides anyway and would show Infinity or NaN.
- LedgerStore.Ledger.Edit: requires the index of an existing entry, because the dialog is only opened on a listed entry; with no entry the code throws before any write.
- LedgerStore.Ledger.Cancel: requires the selected index to name an existing entry, because deletion is only offered on listed entries.
- The edit dialog's `calculateDays` is a character-for-character copy of the dashboard's and is modelled once, as `DayCount.CalculateDays`.
- Counters and amounts are exact `real` numbers. The code adds IEEE doubles, in JavaScript and through the store's `increment`, so rounding (0.1 + 0.2 is not 0.3 there) is not modelled, and the balance invariant is proved exactly only for the model's arithmetic.
