# Admin dashboard core, modelled in Dafny

This project models the decision logic of an admin dashboard for AI assistants, users and subscriptions. It covers:

- **Assistant editor.** The form's initial values, the validation rules (including the USM domain-code pattern), save-time normalisation, classification of the store's error messages, and how field edits clear errors.
- **Assistant card.** Mapping a stored domain value to a display code, icon, colour and label. The pending-action state behind the status dialog, and the card's quick toggle.
- **Assistant status dialog.** The reason gate, reset on open and on cancel, and reading the requested action.
- **Subscription controls.** The tier ladder and the upgrade test, the render guard, and the cancel handler's reason default. The cancel dialog itself can never open as written (see Findings).
- **User management service.** Credit adjustments and their audit trail, user creation, soft deletion, and the user analytics counts.
- **Subscription service.** Plan change, cancellation, pause and resume, the renewal setting, and the subscription analytics counts.
- **Credit dialogs.** The preset-driven one and the per-user one: amount gates, resets, and the disabled state of the submit button.

Every operation is a pure function or a short method over immutable values:

- **Remote store.** The tables an operation writes, and the rows its single-row reads match, are a value passed in and returned. That value includes a trace of the remote calls in the order they were made. The rows returned by the two analytics queries are parameters instead (see Left out).
- **Hidden behaviour as parameters.** Some behaviour cannot be seen: what a stored procedure answers, whether a write fails, and whether an awaited callback returns or throws. Each of these is a parameter (`Result`, `Option`, `Completion`). The same goes for the clock (`now`).
- **JavaScript built-ins.** The built-ins the code depends on are modelled in module `Js`:
  - `trim`
  - ASCII `toUpperCase` / `toLowerCase`
  - `includes`, `startsWith`
  - `parseInt`, with and without radix 10
  - `String(n)` for integers

Files:

- `results.dfy`: `Results`: `Option` and `Result`
- `js.dfy`: `Js`: the JavaScript string and number built-ins
- `assistant_editor.dfy`: `AssistantEditor`
- `assistant_card.dfy`: `AssistantCard`
- `assistant_status_modal.dfy`: `AssistantStatusModal`
- `subscription_controls.dfy`: `SubscriptionControls`
- `user_management.dfy`: `UserManagement`
- `subscriptions.dfy`: `Subscriptions`
- `credit_add_modal.dfy`: `CreditAddModal`
- `add_credits_modal.dfy`: `AddCreditsModal`

Where the system's written description and the code disagree, the model follows the code:

- **Domain pattern.** The description calls the domain-code pattern case-insensitive. The code tests the trimmed value against a case-sensitive pattern and upper-cases only afterwards, so `usmxxx` is rejected (`AssistantEditor.RejectedExamples`).
- **Credit amount.** The description says adding credits fails with a validation error when the amount is not positive. The service functions do no such check; they pass any amount to the stored procedure. Only the two dialogs refuse non-positive amounts. So `UserManagement.AdjustCredits` takes any integer amount.
- **What is recorded.** The description says a credit addition appends a transaction record and changes the balance. Both happen inside the stored procedure, which is not visible. The model records only what the service itself writes: the audit row.

## Model

| member | source | states |
|---|---|---|
| Js.ParseIntOfDecimal | src/pages/user-management/components/CreditAddModal.jsx:86 | `parseInt` reads back `String(n)` for every integer `n`, whatever follows unless it starts with a hex digit (`0`-`9`, `a`-`f`, `A`-`F`), `x` or `X`; so rendering and parsing are inverse |
| Js.TrimIdempotent | src/pages/assistant-management/components/AssistantEditor.jsx:109-110 | trimming an already-trimmed string changes nothing |
| AssistantEditor.InitialForm | src/pages/assistant-management/components/AssistantEditor.jsx:13-22 | fields come from the assistant, with `''`, `USMXXX` and `10` as fallbacks; the state is `Active` exactly when the source state is the text `Active` or the flag `true`, otherwise `Inactive` |
| AssistantEditor.Validate | src/pages/assistant-management/components/AssistantEditor.jsx:50-86 | per field, an error is recorded exactly when its rule fails, with the required/too-short or required/invalid message chosen by whether the trimmed value is empty; the external id is never checked |
| AssistantEditor.ValidateEmptyIff | src/pages/assistant-management/components/AssistantEditor.jsx:87-88 | the error map is empty exactly when every rule of the form holds |
| AssistantEditor.NewFormErrors | src/pages/assistant-management/components/AssistantEditor.jsx:13-85 | a new assistant's form fails only on name, description and knowledge bank; its default domain, state and credits pass |
| AssistantEditor.DomainOptionsAreCodes | src/pages/assistant-management/components/AssistantEditor.jsx:30-43 | every code the selector offers passes the domain pattern |
| AssistantEditor.CodeHasNoLowerCase | src/pages/assistant-management/components/AssistantEditor.jsx:69-70 | a value accepted by the pattern contains no lower-case letter |
| AssistantEditor.RejectedExamples | src/pages/assistant-management/components/AssistantEditor.jsx:69-71 | `usmxxx` and `USM99` are rejected |
| AssistantEditor.SavedCredits | src/pages/assistant-management/components/AssistantEditor.jsx:115 | `parseInt(String(c), 10) \|\| 10` gives back `c`, or 10 when `c` is 0 |
| AssistantEditor.SavedRecordOfValidForm | src/pages/assistant-management/components/AssistantEditor.jsx:105-116 | the record saved from a valid form has trimmed name and description that still meet their minimums. Its domain is the trimmed code unchanged by upper-casing. The external id is null exactly when it was blank, and the state and credits are kept |
| AssistantEditor.CodeIsUpperCase | src/pages/assistant-management/components/AssistantEditor.jsx:105 | upper-casing an accepted code is the identity |
| AssistantEditor.SaveReopenSave | src/pages/assistant-management/components/AssistantEditor.jsx:13-116 | reopening a saved record gives a valid form whose save sends the same record |
| AssistantEditor.ClassifySaveError | src/pages/assistant-management/components/AssistantEditor.jsx:129-142 | first-match order: check-constraint markers, then unique/duplicate, then foreign key, then not-null; each outcome holds exactly when its marker is present and no earlier one is |
| AssistantEditor.SaveErrorText | src/pages/assistant-management/components/AssistantEditor.jsx:140-141 | the banner is never empty and is the store's own message when no rule matches |
| AssistantEditor.CheckConstraintWins | src/pages/assistant-management/components/AssistantEditor.jsx:129-135 | any message containing `violates check constraint` is a state failure, even if it also names a duplicate key |
| AssistantEditor.Open | src/pages/assistant-management/components/AssistantEditor.jsx:24-27 | the editor starts with no errors, not saving and no banners |
| AssistantEditor.Submit | src/pages/assistant-management/components/AssistantEditor.jsx:87-146 | save is called exactly when the form is valid, with the normalised record. A refused submit sets the fix-errors banner and leaves one error key per failing field, so Save is disabled; a submit that reached the callback leaves Save enabled. Success sets the success flag; a throw sets the classified banner |
| AssistantEditor.CreditsInput | src/pages/assistant-management/components/AssistantEditor.jsx:304 | the credits box stores `parseInt(text)`, or 0 when that is NaN |
| AssistantEditor.ApplyEdit | src/pages/assistant-management/components/AssistantEditor.jsx:148-156 | the edited field takes the new value and every other field is kept. A shown error on that field is overwritten with `undefined`, so the set of error keys never changes; other errors are kept and both banners are cleared |
| AssistantEditor.EditForm | src/pages/assistant-management/components/AssistantEditor.jsx:149 | the edited field takes the value its control produces; every other field is kept |
| AssistantEditor.EditsKeepErrorKeys | src/pages/assistant-management/components/AssistantEditor.jsx:148-156 | no run of edits removes an error key or changes the busy flag |
| AssistantEditor.FailedValidationLocksSave | src/pages/assistant-management/components/AssistantEditor.jsx:148-156 | after a refused submit, Save stays disabled whatever edits follow, even edits that make the form valid |
| AssistantEditor.LockOutExample | src/pages/assistant-management/components/AssistantEditor.jsx:447 | a new assistant submitted too early and then completed has a valid form while Save stays disabled |
| AssistantEditor.CompletedFormOk | src/pages/assistant-management/components/AssistantEditor.jsx:50-88 | filling in name, description and knowledge bank makes a new assistant's form valid |
| AssistantEditor.ApplyEditRemoving | src/pages/assistant-management/components/AssistantEditor.jsx:148-152 | the corrected edit: the field takes the new value and its error key is removed; nothing else changes |
| AssistantEditor.RemovingEditsClearTouchedFields | src/pages/assistant-management/components/AssistantEditor.jsx:148-152 | with the corrected edit, the error keys left are exactly those of fields no edit touched, and the form is the same as with the written edit |
| AssistantEditor.ApplyEditsSameForm | src/pages/assistant-management/components/AssistantEditor.jsx:149 | the form a run of edits produces does not depend on the error entries |
| AssistantEditor.RemovingEditsUnlock | src/pages/assistant-management/components/AssistantEditor.jsx:148-152 | with the corrected edit, editing every failing field after a refused submit enables Save again |
| AssistantEditor.CorrectedExampleUnlocks | src/pages/assistant-management/components/AssistantEditor.jsx:148-152 | in the early-submit example, the corrected edit leaves a valid form with Save enabled |
| AssistantEditor.NonNumericCreditsRejected | src/pages/assistant-management/components/AssistantEditor.jsx:83-85 | unreadable credits text becomes 0, which the range rule rejects |
| AssistantCard.DomainDisplayCode | src/pages/assistant-management/components/AssistantCard.jsx:19-41 | the table entry for the lower-cased value, else the upper-cased value, else `Undefined`; never empty |
| AssistantCard.IconFamilies | src/pages/assistant-management/components/AssistantCard.jsx:43-54 | book icon exactly for the ten USM-family values and award icon exactly for itil/it4it, in any letter case; `Bot` otherwise |
| AssistantCard.DomainColor | src/pages/assistant-management/components/AssistantCard.jsx:56-76 | the colour is never empty |
| AssistantCard.ColorFallback | src/pages/assistant-management/components/AssistantCard.jsx:56-76 | grey exactly for values outside the colour switch |
| AssistantCard.TablesAgree | src/pages/assistant-management/components/AssistantCard.jsx:19-76 | icon and colour switches know the same sixteen domains, which are the display table's keys minus `undefined` |
| AssistantCard.LookupsIgnoreCase | src/pages/assistant-management/components/AssistantCard.jsx:40-57 | values equal up to letter case get the same code, icon and colour |
| AssistantCard.FormatDomainDisplay | src/pages/assistant-management/components/AssistantCard.jsx:79-89 | `Undefined` for a missing, empty or `undefined` value. A value whose lower case starts with `usm` is shown fully upper-cased; any other value has only its first character upper-cased and the rest kept |
| AssistantCard.FormatIdempotent | src/pages/assistant-management/components/AssistantCard.jsx:79-89 | formatting a formatted label changes nothing |
| AssistantCard.FormatAgreesWithDisplayCode | src/pages/assistant-management/components/AssistantCard.jsx:79-89 | for a USM-family value the formatted label equals the display code |
| AssistantCard.LegacyLabelKeepsTail | src/pages/assistant-management/components/AssistantCard.jsx:79-89 | outside the USM family the label keeps every character after the first, and the first differs only in letter case and is not lower-case |
| AssistantCard.StatusClick | src/pages/assistant-management/components/AssistantCard.jsx:108-111 | the action is remembered and the dialog shown |
| AssistantCard.StatusCancel | src/pages/assistant-management/components/AssistantCard.jsx:113-116 | the dialog is hidden and the action forgotten |
| AssistantCard.StatusConfirm | src/pages/assistant-management/components/AssistantCard.jsx:118-131 | the callback runs exactly when both action and id are present; afterwards the card is idle whether the call returned or threw |
| AssistantCard.ClickThenCancel | src/pages/assistant-management/components/AssistantCard.jsx:108-116 | click then cancel closes the dialog with no action pending |
| AssistantCard.ClickThenConfirm | src/pages/assistant-management/components/AssistantCard.jsx:108-131 | click then confirm sends that action once and ends idle |
| AssistantCard.CardNeverOpensDialog | src/pages/assistant-management/components/AssistantCard.jsx:220-226 | the card wires only the dialog's close and confirm handlers; from idle, any run of those leaves the card idle and never calls the status callback |
| AssistantCard.ToggleAction | src/pages/assistant-management/components/AssistantCard.jsx:98 | the flipping action is `deactivate` exactly for an active assistant |
| AssistantCard.StatusToggleAsWritten | src/pages/assistant-management/components/AssistantCard.jsx:91-106 | for a stored state of `Active` or `Inactive`, the quick toggle as written hands over a value other than the flipping action |
| AssistantCard.ToggleAsWrittenDiffers | src/pages/assistant-management/components/AssistantCard.jsx:91-100 | for every stored state, the toggle as written and the corrected one agree only on the non-state word `activate`. For `Inactive`, what is written is not read as an activation while the corrected action is; for `Active`, it sends `Active` instead of `deactivate` |
| AssistantCard.ToggleFlipsState | src/pages/assistant-management/components/AssistantCard.jsx:97-100 | the corrected toggle asks to activate exactly the assistants that are not active |
| AssistantStatusModal.OnOpenChange | src/pages/assistant-management/components/AssistantStatusModal.jsx:16-21 | opening clears the reason and the busy flag; closing leaves them |
| AssistantStatusModal.Submit | src/pages/assistant-management/components/AssistantStatusModal.jsx:23-43 | no call for a blank reason. Otherwise the trimmed, non-empty reason is sent; the dialog closes only on success and is no longer busy either way |
| AssistantStatusModal.Cancel | src/pages/assistant-management/components/AssistantStatusModal.jsx:45-49 | cancel clears the reason and the busy flag, asks the parent to close, and calls no confirm callback |
| AssistantStatusModal.CancelDiscardsReason | src/pages/assistant-management/components/AssistantStatusModal.jsx:16-49 | cancel leaves the dialog as reopening would; a submit right after sends nothing, where a submit before the cancel would have sent the typed reason |
| AssistantStatusModal.ActionText | src/pages/assistant-management/components/AssistantStatusModal.jsx:53-56 | `Activate` exactly for the action `activate`; anything else, null included, is `Deactivate` |
| AssistantStatusModal.ConfirmEnabledIffSubmits | src/pages/assistant-management/components/AssistantStatusModal.jsx:150 | when not busy, the confirm button is enabled exactly when a submit would call the callback |
| AssistantStatusModal.FailureAllowsRetry | src/pages/assistant-management/components/AssistantStatusModal.jsx:32-39 | a failed confirmation keeps the dialog open and the reason, so a retry sends the same reason |
| SubscriptionControls.IndexOf | src/pages/subscription-management/components/SubscriptionControls.jsx:37-38 | the first position holding the value, or -1 exactly when absent |
| SubscriptionControls.IndexOfIsRank | src/pages/subscription-management/components/SubscriptionControls.jsx:37 | the ladder position equals a hand-written rank: registered 0, subscriber 1, founder 2, unlimited 3, otherwise -1 |
| SubscriptionControls.UpgradeByRank | src/pages/subscription-management/components/SubscriptionControls.jsx:36-38 | an upgrade means a current tier exists and the selected rank is strictly higher |
| SubscriptionControls.SameTierIsNoUpgrade | src/pages/subscription-management/components/SubscriptionControls.jsx:37-38 | staying on a tier is never an upgrade |
| SubscriptionControls.UpgradeIsStrictOrder | src/pages/subscription-management/components/SubscriptionControls.jsx:37-38 | on the four known tiers the upgrade relation is asymmetric, transitive and total |
| SubscriptionControls.UnknownTiers | src/pages/subscription-management/components/SubscriptionControls.jsx:36-38 | unknown current tier: every known selection is an upgrade. Unknown selection: never an upgrade. No current tier: never an upgrade |
| SubscriptionControls.LadderClimbs | src/pages/subscription-management/components/SubscriptionControls.jsx:37-38 | any move up the ladder is an upgrade |
| SubscriptionControls.Render | src/pages/subscription-management/components/SubscriptionControls.jsx:16-110 | nothing is rendered exactly when no plan is selected and cancel-confirm is off; the cancel dialog wins over the plan dialog |
| SubscriptionControls.ConfirmChange | src/pages/subscription-management/components/SubscriptionControls.jsx:20-24 | the plan callback gets the selected plan exactly when there is one and a callback |
| SubscriptionControls.CancelSubscription | src/pages/subscription-management/components/SubscriptionControls.jsx:26-32 | with a callback, it gets the reason as typed, or the default when empty, and the dialog resets; without one nothing changes |
| SubscriptionControls.CancelClosesDialog | src/pages/subscription-management/components/SubscriptionControls.jsx:26-32 | were the cancel dialog open, confirming with a callback would close it, so it is no longer rendered |
| SubscriptionControls.Handle | src/pages/subscription-management/components/SubscriptionControls.jsx:117-165 | each wired handler's effect on the cancel dialog's state: the two close buttons hide it, the reason box sets the reason, confirm runs the cancel handler, and the plan dialog's buttons leave it alone |
| SubscriptionControls.CancelDialogNeverOpens | src/pages/subscription-management/components/SubscriptionControls.jsx:13-165 | from a closed cancel dialog, no run of wired handlers opens it, so the component never renders the cancel dialog and the cancel callback is never reached |
| SubscriptionControls.HandleCorrected | src/pages/subscription-management/components/SubscriptionControls.jsx:110-165 | the corrected controls: an opener shows the cancel dialog; the wired handlers act as before |
| SubscriptionControls.CorrectedCancelReachable | src/pages/subscription-management/components/SubscriptionControls.jsx:26-32 | with the opener, the cancel dialog is shown, a typed reason reaches the cancel callback, and confirming closes the dialog |
| UserManagement.Matches | src/services/userManagementService.js:92 | the rows with the id, each from the table; empty exactly when no row has it |
| UserManagement.MatchesKeepsEveryRow | src/services/userManagementService.js:92 | every row with the id is returned as often as the table holds it, and no other row |
| UserManagement.MatchesAppend | src/services/userManagementService.js:92 | reading a table grown at the end gives the old matches followed by the new ones |
| UserManagement.Single | src/services/userManagementService.js:92 | a row exactly when one row matches |
| UserManagement.AdminName | src/services/userManagementService.js:94 | full name, else email, else `Unknown Admin`; never empty |
| UserManagement.AdjustCredits | src/services/userManagementService.js:85-172 | no caller: throws before any read or procedure call. With a caller, the calls are exactly user, admin profile, procedure, then the audit insert when the procedure succeeded. A procedure error is rethrown with nothing logged and the credit table unchanged. On success the credit table is the one the procedure left and its data is returned; the audit row, unless its insert fails, is the whole entry built from caller, target, amount, note and admin name (entity type, activity type, description text, signed amount and metadata) |
| UserManagement.AdjustmentMovesLedger | src/services/userManagementService.js:105-119 | a logged adjustment moves the target's logged net by the signed amount and nobody else's |
| UserManagement.AddThenDeductCancels | src/services/userManagementService.js:85-172 | adding then deducting the same amount leaves the logged net unchanged |
| UserManagement.LedgerTracksBalance | src/services/userManagementService.js:85-172 | if the procedure moves the user's balance by the signed amount, the balance and the logged net move together; a failed procedure moves neither |
| UserManagement.AuditDescriptionLeadsWithAmount | src/services/userManagementService.js:111 | `parseInt` of the audit description gives back the amount |
| UserManagement.CreateUser | src/services/userManagementService.js:245-265 | an insert error is rethrown. Otherwise the row is added and returned; a zero-balance account is requested exactly when the row has an id, and a failure there is ignored |
| UserManagement.CreateThenDelete | src/services/userManagementService.js:229-265 | creating a user under a fresh id and deleting it leaves one inactive row for the id, returned by the delete, next to a zero-balance credit account |
| UserManagement.DeleteUser | src/services/userManagementService.js:229-242 | with exactly one row for the id, only that row's active flag and timestamp change; otherwise an error and no change |
| UserManagement.MatchesAfterDeactivate | src/services/userManagementService.js:232-236 | after the update the id selects the same rows, each deactivated |
| UserManagement.DeleteIsSoft | src/services/userManagementService.js:229-242 | after a delete the user is still there, inactive, with name, email and role kept; a second delete returns it again |
| UserManagement.CountWhere | src/services/userManagementService.js:271-294 | a category count never exceeds the number of users |
| UserManagement.RoundHalfUp | src/services/userManagementService.js:310 | `Math.round(total / n)`: the nearest integer, halves up |
| UserManagement.Summarize | src/services/userManagementService.js:268-312 | the one-pass summary equals the independent per-category counts, total and average |
| UserManagement.CountMonotone | src/services/userManagementService.js:292-294 | a category contained in another never counts more users |
| UserManagement.SummaryBounds | src/services/userManagementService.js:271-294 | every count is at most the total; the premium count is at least the subscriber, founder and unlimited counts |
| UserManagement.TotalOfEqualBalances | src/services/userManagementService.js:296-298 | equal first balances sum to count times balance |
| UserManagement.AverageOfEqualBalances | src/services/userManagementService.js:296-310 | when all first balances are equal, the average is that balance |
| UserManagement.FetchAllUsers | src/services/userManagementService.js:5-43 | no caller: throws `User not authenticated`; a query error is rethrown; a missing result is an empty list |
| UserManagement.GetAnalytics | src/services/userManagementService.js:268-312 | fails exactly when the fetch fails; otherwise the summary of the fetched users, all zero for none |
| Subscriptions.PlansOf | src/services/subscriptionService.js:36-38 | the active catalogue rows of the tier, each from the catalogue; empty exactly when there is none |
| Subscriptions.PlansOfKeepsEveryRow | src/services/subscriptionService.js:36-38 | every active row of the tier is returned as often as the catalogue holds it, and no other row |
| Subscriptions.LookupPlan | src/services/subscriptionService.js:36-40 | a plan exactly when one active row of the tier exists, else the single-row error |
| Subscriptions.Upserted | src/services/subscriptionService.js:43-54 | the upserted row: tier, status `active`, plan credits and price, billing date now plus 30 days; columns outside the payload are kept |
| Subscriptions.ChangeSubscriptionPlan | src/services/subscriptionService.js:24-83 | the steps issued stop at the first failing one among simulate, plan lookup and upsert, and that error is rethrown before either follow-up write. The simulation's table persists when a later step fails. On success only the user's row changes, to the upserted row; the simulation's row is marked completed unless that write fails, and one change record is appended unless its insert fails |
| Subscriptions.Completed | src/services/subscriptionService.js:61-67 | the simulation row with the id is marked completed at `now`; every other row is kept and no row is added |
| Subscriptions.PendingSimulationOutcome | src/services/subscriptionService.js:24-83 | a simulation that inserted a pending row leaves it pending exactly when the change fails, and completed exactly when it succeeds |
| Subscriptions.FollowUpFailuresAreSilent | src/services/subscriptionService.js:61-78 | failing completion or change-log writes never change the result or the subscription rows |
| Subscriptions.RepeatedChange | src/services/subscriptionService.js:43-76 | the same change twice leaves the same row but two identical change records |
| Subscriptions.UpdateActiveRow | src/services/subscriptionService.js:86-101 | a row is patched exactly when the user has an active row and the write does not fail; otherwise the rows are unchanged |
| Subscriptions.CancelSubscription | src/services/subscriptionService.js:86-102 | the user's active row becomes the same row with status `cancelled`, the reason or its default, the cancellation date, renewal off and the new timestamp; it stays active and no other row or table changes. The write's error is rethrown and then nothing changes |
| Subscriptions.PauseSubscription | src/services/subscriptionService.js:105-118 | the user's active row becomes the same row with status `paused` and the new timestamp, and no other row or table changes; a failed or unmatched write changes nothing, and the write's error is rethrown |
| Subscriptions.ResumeSubscription | src/services/subscriptionService.js:121-134 | the user's active row becomes the same row with status `active` and the new timestamp, so renewal and any cancellation record are kept; a failed or unmatched write changes nothing, and the write's error is rethrown |
| Subscriptions.UpdateRenewalSettings | src/services/subscriptionService.js:157-170 | the user's active row becomes the same row with the given renewal flag and the new timestamp; a failed or unmatched write changes nothing, and the write's error is rethrown |
| Subscriptions.PauseThenResume | src/services/subscriptionService.js:105-134 | pause then resume of an active subscription restores the row up to its timestamp |
| Subscriptions.RenewalToggleRestores | src/services/subscriptionService.js:157-170 | switching renewal and back restores the row up to its timestamp |
| Subscriptions.CancelThenResume | src/services/subscriptionService.js:86-134 | a cancelled row stays active, so resume makes it `active` again with renewal still off and the reason kept |
| Subscriptions.CountRows | src/services/subscriptionService.js:181-197 | a status or tier count never exceeds the number of rows |
| Subscriptions.CountSubscriptions | src/services/subscriptionService.js:179-202 | status counts match the filters. The tier keys are distinct and are exactly the tiers present, each with its count, and the counts sum to the total |
| Subscriptions.GroupByTier | src/services/subscriptionService.js:189-197 | the tier keys are distinct and are exactly the tiers present, each with its count, and the counts sum to the number of rows |
| Subscriptions.AddTierKeepsGrouping | src/services/subscriptionService.js:191-196 | bumping a seen tier, or appending an unseen one at 1, extends a correct grouping by one row |
| Subscriptions.CountByStatus | src/services/subscriptionService.js:181-183 | the one-pass status counts equal the three filters |
| Subscriptions.SumBump | src/services/subscriptionService.js:197 | adding one to a listed tier adds one to the sum |
| Subscriptions.SumFresh | src/services/subscriptionService.js:191-197 | a new tier with count one adds one to the sum |
| Subscriptions.SumFrame | src/services/subscriptionService.js:191-196 | setting an unlisted tier's count does not change the sum |
| Subscriptions.StatusCountsBounded | src/services/subscriptionService.js:180-183 | active plus trial plus cancelled never exceeds the total (paused rows are not counted) |
| Subscriptions.GetSubscriptionAnalytics | src/services/subscriptionService.js:173-205 | a query error is rethrown. Otherwise the total is the row count, each status count is the length of its filter, and the tier grouping holds exactly the tiers present with their row counts; no rows gives all zeros and no tiers |
| CreditAddModal.AcceptsIffPositive | src/pages/user-management/components/CreditAddModal.jsx:17 | the guard accepts exactly the parsed positive integers |
| CreditAddModal.Submit | src/pages/user-management/components/CreditAddModal.jsx:13-30 | the callback gets the parsed positive amount and the description exactly when accepted, else the alert. The fields are never reset by a submit |
| CreditAddModal.Close | src/pages/user-management/components/CreditAddModal.jsx:32-36 | close puts back `100` and the default description |
| CreditAddModal.CloseRestoresInitial | src/pages/user-management/components/CreditAddModal.jsx:7-8 | the values close restores are the initial ones |
| CreditAddModal.ChoosePreset | src/pages/user-management/components/CreditAddModal.jsx:86 | a preset sets the amount to its decimal string |
| CreditAddModal.PresetThenSubmit | src/pages/user-management/components/CreditAddModal.jsx:16-86 | choosing a preset and submitting grants exactly that preset |
| CreditAddModal.PresetHighlightIsUnique | src/pages/user-management/components/CreditAddModal.jsx:88 | after choosing a preset, exactly that preset is highlighted |
| CreditAddModal.InitialGrantsHundred | src/pages/user-management/components/CreditAddModal.jsx:7-8 | the prefilled dialog grants 100 with the default description, and preset 100 is highlighted |
| CreditAddModal.RejectedAmounts | src/pages/user-management/components/CreditAddModal.jsx:16-20 | empty, `0` and `-5` raise the alert |
| AddCreditsModal.Note | src/pages/user-management/components/AddCreditsModal.jsx:26 | the trimmed description, or the default when blank; never empty |
| AddCreditsModal.Submit | src/pages/user-management/components/AddCreditsModal.jsx:16-36 | the callback gets the parsed positive amount and the note exactly when accepted. Success clears and closes; failure keeps the fields |
| AddCreditsModal.Close | src/pages/user-management/components/AddCreditsModal.jsx:38-42 | close clears both fields and closes |
| AddCreditsModal.SameGateAsPresetDialog | src/pages/user-management/components/AddCreditsModal.jsx:20 | this guard and the preset dialog's guard accept the same amounts: the positive integers |
| AddCreditsModal.DisabledNeverSubmits | src/pages/user-management/components/AddCreditsModal.jsx:111 | a disabled button's amount would be refused by the handler |
| AddCreditsModal.UnreadableAmountEnabledButRefused | src/pages/user-management/components/AddCreditsModal.jsx:111 | `-` leaves the button enabled but the handler refuses it |
| AddCreditsModal.EnabledIffSubmits | src/pages/user-management/components/AddCreditsModal.jsx:111 | for readable amounts, the button is enabled exactly when a submit would call |
| AddCreditsModal.RetryAfterFailure | src/pages/user-management/components/AddCreditsModal.jsx:24-33 | after a failure, a retry sends the same request; success leaves a cleared, closed dialog |
| AddCreditsModal.TypedAmountIsSent | src/pages/user-management/components/AddCreditsModal.jsx:18-27 | a typed decimal amount is sent as that number, with the trimmed note |

## Left out

- Rendering is not modelled. This covers markup, styling, icon components, the `if (!isOpen) return null` guards of the dialogs, and the plan dialog's wording. Only the decisions behind them are modelled.
- Timestamps are integer parameters (`now`). ISO-8601 formatting and the real clock are not modelled.
- `setTimeout`, which clears the editor's success flag after three seconds, is left out because it is timer behaviour.
- Logging and `alert` are left out. `alert` is a flag in `CreditAddModal.Submit`.
- Intermediate busy states are not modelled. Only the state after an awaited callback settles is modelled, not the state during the await.
- The store's procedures are hidden behind their answers. These are `add_user_credits`, `deduct_user_credits` and `simulate_subscription_change`. Their bodies are not visible, so what they return and the table they leave (`user_credits` for the credit procedures, `billing_simulations` for the simulation) are parameters. Balance rules such as non-negativity, and the transaction records, live inside them and are not modelled.
- Subscription rows are keyed by user: the model assumes the upsert's conflict target is `user_id`. A new row is assumed to take `is_active = true` and `auto_renewal = true` from the table defaults. The schema is not part of this model.
- Subscriptions.GetSubscriptionAnalytics: the rows the query returns are a parameter, not derived from the stored subscriptions, so its `is_active = true` filter is not modelled; the counts are stated over whatever rows are returned.
- UserManagement.FetchAllUsers: the rows of the joined users query are a parameter, not derived from the stored profiles, subscriptions and credit rows.
- Revenue and monthly recurring revenue in the subscription analytics are left out, because they use floating point (`parseFloat`).
- Prices are plain integers.
- The user average is computed exactly over the integers. Floating-point error is ignored.
- Case mapping covers ASCII letters only. Strings are sequences of characters, not UTF-16 code units.
- `parseInt` is modelled for integer results. Precision loss above 2^53, `-0`, and other radices are left out.
- Object lookups are own-property lookups. Inherited names such as `constructor` in the domain table, or in the tier grouping, are not modelled.
- The tier grouping keeps keys in first-seen order. JavaScript lists integer-like keys first, and that is not modelled. A missing tier is the string key it would become.
- Subscriptions.GroupByTier: the ensures do not state that keys appear in first-seen order. They state only that the keys are distinct, match the tiers present, and carry the right counts.
- The service's credit amount is an integer. Its callers pass `parseInt` results.
- The files contain other service functions that are not part of this model. In userManagementService.js: `updateUserProfile`, `toggleUserStatus`, `changeUserRole`, `updateUserSubscription`, `getUserCreditTransactions`, `getUserConversations`, `bulkUpdateUsers` and the `syncMissing*` helpers. In subscriptionService.js: `getCurrentSubscription`, `getSubscriptionPlans`, `getSubscriptionHistory` and `getBillingSimulations`. Each is a single query passed through.
- The editor's knowledge-bank option list is left out because it is presentation.

## Findings

| source | as written | input that shows it | evidently intended | confidence | as-written member | corrected member |
|---|---|---|---|---|---|---|
| src/pages/assistant-management/components/AssistantEditor.jsx:148-152 | a field edit clears its error by setting the entry to `undefined`, which keeps the key; Save is disabled while `Object.keys(errors)` is non-empty (line 447), and only a submit replaces the error object | a new assistant: press Save with the form empty (name, description and knowledge bank fail), then fill in those three fields; the form is now valid but Save stays disabled until the editor is reopened (`AssistantEditor.LockOutExample`) | remove the cleared key (or count only entries with a message), so fixing every failing field enables Save again | likely; not executed | AssistantEditor.FailedValidationLocksSave | AssistantEditor.RemovingEditsUnlock |
| src/pages/assistant-management/components/AssistantCard.jsx:91-106 | a latent defect in code with no caller: `handleStatusToggle` computes the flipping action at line 98, never uses it, and passes the current state (`Active`/`Inactive`) to the status callback. Neither it nor `handleStatusClick` is wired to anything, so the card never opens its status dialog (`AssistantCard.CardNeverOpensDialog`) | an assistant in state `Inactive`, if the toggle were wired: the callback would receive `Inactive`, where the confirmed path at line 122 sends `activate` | pass the computed action, as the confirmed path does (the parent's handler is not part of this model, so the callback's expected vocabulary is inferred from line 122) | medium; not executed | AssistantCard.StatusToggleAsWritten | AssistantCard.StatusToggle |
| src/pages/subscription-management/components/SubscriptionControls.jsx:13-165 | dead code: `showCancelConfirm` starts false (line 13) and is only ever set to false (lines 29, 117, 158); no prop controls it. So the cancel dialog (line 110) never renders and `handleCancelSubscription`, wired only inside it (line 165), never runs | any sequence of clicks and typing in the controls: the cancel dialog never appears and `onCancel` is never called | provide an entry point (a button or prop) that sets `showCancelConfirm` to true, so the dialog and its handler are reachable | medium; not executed | SubscriptionControls.CancelDialogNeverOpens | SubscriptionControls.CorrectedCancelReachable |
