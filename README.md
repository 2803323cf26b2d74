# Hospital queue: a Dafny model of its rules

This project models the rules of a demo hospital-queue web application in
Dafny. The application is written in TypeScript with React and keeps its data
in memory. The modelled parts are:

- **The hospital tables** (`MockData`): the patients and departments tables,
  the status update and the admission of a new patient that change them in
  place, and the lookups by patient id and by credentials.
- **The live queue** (`LiveQueue`): a waiting patient's queue position, which
  is a priority rank among the waiting patients of the same department; the
  estimated wait derived from it; the ordering of the waiting list; and the
  "Find My Position" search.
- **The queue service** (`QueueService`): the predicted wait for a priority,
  and the account registry behind sign-up and login. Accounts created at
  sign-up are searched before the built-in users.
- **The admin panel** (`AdminPanel`): the status filter, the overview counts,
  the status actions offered for each row (a small state machine), and the
  add-patient form.
- **The patient dashboard** (`PatientDashboard`): the queue search, booking
  and cancelling appointments, the user effect that reloads the preloaded
  appointments after each of them, the average department wait, and the
  keyword-driven assistant with its conversation context.
- **Inventory management** (`Inventory`): add, update and delete on the stock
  list, with the form's validation guard.
- **The analytics page** (`Analytics`): total patients, rounded average wait,
  busiest day, the peak-hour series and peak hour, the department chart with
  its fallbacks, and the prediction-accuracy rows.
- **The AI predictions page** (`AIPredictions`): the bed and inventory
  filters, the row limit of the time window, the CSV export, and the
  per-department and per-category averages.
- **The login page** (`LoginPage`): the guards, the parsing of the diseases
  field, the role-dependent sign-up arguments, the redirect, and the toggles
  that clear the form.

Shared pieces:

- `Types` holds the records of `index.ts` and the lookups several components
  share.
- `Common` holds the option and result types, `Math.round` on exact
  fractions, sums, and the string operations used (trim, toLowerCase,
  includes, split, join, number formatting).
- `Sorting` holds `Array.prototype.sort` with a comparator. JavaScript's sort
  is stable, so it is modelled by insertion sort.

Where the source changes state, the model has a class:

- `MockData.Hospital` holds the two tables.
- `QueueService.UserRegistry` holds the registered accounts.
- `LiveQueue.QueueView`, `PatientDashboard.Dashboard`,
  `Inventory.InventoryPage` and `LoginPage.LoginForm` hold the component state
  their handlers replace.

Each such method's `ensures` ties the new state to a function of the old
state. The lemmas state the properties of those functions.

Some inputs come from outside the model and are parameters:

- random draws and random ids;
- the clock (`Date.now()`, `new Date()`, the current hour);
- the answer to a confirmation dialog;
- `parseInt` of a form field.

Multipliers such as 1.5, 0.7 and 0.3 are exact tenths. `Math.round` is
round-half-up on the exact fraction.

## Model

| member | source | states |
|---|---|---|
| Types.FindPatientIndex | mockData.ts:306 | the index found is the first patient with the id; None means no patient has it |
| Types.FindDepartment | mockData.ts:332 | some department has the name exactly when one is found, and the one found is the first department with that name |
| Types.WaitingIn | mockData.ts:339-341 | exactly the patients of the department whose status is waiting, never more than the whole list |
| Types.WaitingInAppend | LiveQueue.tsx:119-120 | the filter works element by element, so it keeps array order: filtering a concatenation filters each part |
| Types.StatusNameInjective | index.ts:5 | the four status texts are distinct |
| Common.RoundHalfUp | mockData.ts:359 | Math.round of num/den: the result r satisfies r - 1/2 <= num/den < r + 1/2 |
| Common.RoundHalfUpMonotone | LiveQueue.tsx:147 | rounding never reverses the order of two fractions with the same denominator |
| Common.RoundHalfUpExact | mockData.ts:359 | a whole number rounds to itself |
| Common.RoundedMeanWithin | AnalyticsPage.tsx:171 | the rounded mean of a non-empty list lies between a lower and an upper bound of its elements |
| Common.SumAppend | AnalyticsPage.tsx:164 | the reduce-sum of a concatenation is the sum of the parts' sums |
| Common.SumWithin | AnalyticsPage.tsx:164 | n elements within [lo, hi] sum to within [n*lo, n*hi] |
| Common.Trim | Login.tsx:38 | trim gives a slice of its input with no whitespace at either end and only whitespace before and after it (so the input is the result padded with whitespace), and is empty exactly when the input is all whitespace |
| Common.TrimIsSlice | Login.tsx:38 | the trimmed text sits in the input right after the leading whitespace, with only whitespace around it |
| Common.TrimNoOp | Login.tsx:38 | text with no whitespace at either end is left unchanged, so trimming twice changes nothing |
| Common.TrimSubset | Login.tsx:38 | trimming adds no character |
| Common.ToLower | AIPredictions.tsx:157 | lower-casing keeps the length, maps each character, and leaves no upper-case letter |
| Common.ToLowerIdempotent | AIPredictions.tsx:157 | lower-casing twice is lower-casing once |
| Common.Contains | PatientDashboard.tsx:249 | includes is true exactly when the pattern occurs at some index |
| Common.FirstIndex | mockData.ts:306 | find/findIndex: the index of the first element satisfying the test, or None exactly when no element does |
| Common.ContainsBasics | PatientDashboard.tsx:249 | every text includes the empty text and itself |
| Common.Split | Login.tsx:38 | split yields one piece more than there are separators, and no piece holds the separator |
| Common.JoinSplit | Login.tsx:38 | joining the pieces of a split with the same separator gives back the text |
| Common.SplitJoin | AIPredictions.tsx:144 | splitting a join gives back the list when no piece holds the separator |
| Common.NatToString | mockData.ts:331 | a non-negative number is written as non-empty decimal digits without a leading zero |
| Common.NatToStringValue | mockData.ts:331 | reading the decimal text back gives the number |
| Common.NatToStringInjective | mockData.ts:331 | different numbers have different decimal texts |
| Common.IntToString | AIPredictions.tsx:141 | an integer is written with a leading '-' exactly when it is negative, followed by at least one digit and nothing else, and the digits read back as its absolute value |
| Sorting.InsertBy | LiveQueue.tsx:121-124 | inserting adds exactly one element to the multiset |
| Sorting.SortBy | LiveQueue.tsx:121-124 | the sort is a permutation of its input |
| Sorting.InsertBySorted | LiveQueue.tsx:121-124 | inserting into a list sorted by a total preorder keeps it sorted |
| Sorting.SortBySorted | LiveQueue.tsx:180-185 | with a total-preorder comparator, the sort's output is sorted |
| Sorting.InsertBySplit | LiveQueue.tsx:121-124 | an element goes after every element it may not precede and before the rest, which is what makes the sort stable |
| MockData.PatientIdForInjective | mockData.ts:331 | the ids `p${n}` of different admission numbers differ |
| MockData.SequentialIdsDistinct | mockData.ts:331 | a table numbered p1, p2, ... in order holds no two patients with the same id |
| MockData.GetPatientById | mockData.ts:386-393 | some patient has the id exactly when one is returned, and then it is the first patient with that id |
| MockData.AuthenticateUser | mockData.ts:372-384 | a user is returned exactly when one has both the username and the password, and then it is the first such user |
| MockData.WithStatus | mockData.ts:307-315 | the record takes the new status; leaving waiting sets queue position and wait to 0, and back to waiting keeps both; every other field is unchanged |
| MockData.WithStatusIdempotent | mockData.ts:307-315 | setting the same status twice is setting it once |
| MockData.SetStatusIn | mockData.ts:306-316 | the update keeps the table's length and every patient's id |
| MockData.UpdateThenGet | mockData.ts:306-316 | after the update, looking the id up gives the old record with the new status applied |
| MockData.SetStatusInOthersUnchanged | mockData.ts:306-316 | a patient with another id is not touched, and positions are not renumbered |
| MockData.AdmissionWait | mockData.ts:343-359 | emergency waits exactly 5, medium the department average; low and high wait 1.5x and 0.7x the average, rounded |
| MockData.AdmissionWaitOrder | mockData.ts:343-359 | for a non-negative average, high never waits longer than medium, nor medium longer than low |
| MockData.NewPatient | mockData.ts:331-362 | the new record has id `p${n+1}`, status waiting, the given name, priority and department, position 1 + waiting patients of the department, and the admission wait |
| MockData.NewPatientEndsQueue | mockData.ts:339-341 | the position given at admission equals the size of the department's waiting list once the patient is in, whatever the priority |
| MockData.NewPatientIdFresh | mockData.ts:331 | the new id belongs to no existing patient, the table stays numbered in order, and looking the id up afterwards finds the new patient |
| MockData.Hospital.UpdatePatientStatus | mockData.ts:300-322 | an unknown id is the 'Patient not found' error and changes nothing; otherwise only the first patient with the id is updated, the updated record is returned, and the departments table is unchanged |
| MockData.Hospital.AddNewPatient | mockData.ts:324-370 | an unknown department is the 'Department not found' error and changes neither table; otherwise exactly the new record is appended and only that department's waiting count rises by one |
| QueueService.PredictedWaitTime | queueService.ts:40-61 | the prediction is round(base x multiplier) with a base of 15 to 44 and multipliers 1.5, 1, 0.7, 0.3; the department is not consulted; each priority's range is given |
| QueueService.PredictedWaitTimeOrder | queueService.ts:46-61 | for the same draw, a more urgent priority never gets a longer prediction |
| QueueService.NewAccount | queueService.ts:104-118 | the account has the credentials, the requested role and the name "Patient "/"Admin " + username; patient-only fields are set only for patients and staff fields only for admins |
| QueueService.Login | queueService.ts:66-79 | a user is returned exactly when a registered or a built-in account has the credentials; with a registered match it is the first registered match, and otherwise the first built-in match |
| QueueService.LoginAfterSignup | queueService.ts:66-120 | an account created at sign-up logs in with its own credentials, whatever the built-in users are |
| QueueService.UserRegistry.Signup | queueService.ts:81-125 | a taken username or e-mail is refused with 'Username or email already exists' and adds nothing; otherwise exactly the new account is appended; no two accounts ever share a username or an e-mail |
| LiveQueue.IndexOfId | LiveQueue.tsx:125 | findIndex is the first position with the id, or -1 exactly when no element has it |
| LiveQueue.QueuePosition | LiveQueue.tsx:117-126 | the position is null exactly when the patient is not waiting |
| LiveQueue.WithRankMembers | LiveQueue.tsx:119-125 | a rank bucket holds exactly the members of that rank |
| LiveQueue.SortByRankIsBuckets | LiveQueue.tsx:119-125 | the stable sort by priority rank lists the emergency, high, medium and low patients, each group in array order |
| LiveQueue.BelowFrom | LiveQueue.tsx:119-125 | the ranked queue splits into the ranks before a rank, that rank's bucket, and the ranks after it |
| LiveQueue.BucketSplitAt | LiveQueue.tsx:119-120 | a patient's bucket splits into the bucket's patients before it in the array, the patient, and those after it |
| LiveQueue.RankedQueueAround | LiveQueue.tsx:119-125 | in the ranked queue, a waiting patient stands after every higher-priority patient and the earlier patients of its own priority, and before all others |
| LiveQueue.QueuePositionCounts | LiveQueue.tsx:117-126 | with distinct ids, a waiting patient's position is 1 + the number of waiting patients of the department with a higher priority + those of equal priority earlier in the array |
| LiveQueue.QueuePositionBounds | LiveQueue.tsx:117-126 | a waiting patient's position lies between 1 and the number of waiting patients in its department |
| LiveQueue.QueuePositionByPriority | LiveQueue.tsx:121-125 | in one department, a strictly higher priority always gets a strictly smaller position |
| LiveQueue.PositionWithinBucket | LiveQueue.tsx:121-125 | a position never exceeds the number of waiting patients of the department with the same or a higher priority |
| LiveQueue.QueuePositionStable | LiveQueue.tsx:119-125 | patients of equal priority keep their array order in the queue |
| LiveQueue.QueuePositionsDistinct | LiveQueue.tsx:119-125 | with distinct ids, two different waiting patients of one department never share a position |
| LiveQueue.ScaledWait | LiveQueue.tsx:133-147 | the estimate is average x multiplier (1.5, 1, 0.7, 0.3) x position/2 rounded with halves up, or 1 when that rounds to 1 or less |
| LiveQueue.EstimatedTime | LiveQueue.tsx:128-148 | the estimate is null exactly when the patient is not waiting or the department is unknown; otherwise it is at least 1 |
| LiveQueue.ScaledWaitMonotoneInPosition | LiveQueue.tsx:144-147 | for one department and priority, a later position never gets a shorter estimate |
| LiveQueue.ScaledWaitMonotoneInPriority | LiveQueue.tsx:137-142 | for one department and position, a higher priority never gets a longer estimate |
| LiveQueue.EstimatedTimeFollowsPosition | LiveQueue.tsx:128-148 | of two waiting patients of one department and priority, the one further ahead never gets a longer estimate |
| LiveQueue.AllWaiting | LiveQueue.tsx:179 | exactly the waiting patients |
| LiveQueue.UrgencyIsPreorder | LiveQueue.tsx:180-185 | the waiting-list comparator is total and transitive |
| LiveQueue.WaitingPatients | LiveQueue.tsx:178-185 | a permutation of the waiting patients, ordered by priority rank and, within a rank, by estimated wait |
| LiveQueue.UrgencySortedFields | LiveQueue.tsx:180-185 | a list sorted by that comparator is ordered by rank and, within a rank, by estimated wait |
| LiveQueue.SearchFor | LiveQueue.tsx:78-95 | a blank id gives 'Please enter a patient ID'; otherwise a patient is found exactly when one has the id, the first such patient, and else 'Patient not found' |
| LiveQueue.NotificationsAfter | LiveQueue.tsx:85-91 | finding a waiting patient turns notifications on, one in progress turns them off, and anything else leaves them as they were |
| LiveQueue.QueueView.HandleSearch | LiveQueue.tsx:78-95 | the search result and notifications become those of the search over the current patients and typed id; nothing else changes |
| LiveQueue.QueueView.EnterPatientId | LiveQueue.tsx:222 | typing an id changes only the id field |
| AdminPanel.FilteredPatients | AdminPanel.tsx:52-55 | the filter 'all' returns the list unchanged, and no filter returns more patients than there are |
| AdminPanel.FilteredMembers | AdminPanel.tsx:52-55 | any other filter keeps exactly the patients whose status text equals it |
| AdminPanel.FilteredAppend | AdminPanel.tsx:52-55 | the filter keeps the original order |
| AdminPanel.UnknownFilterIsEmpty | AdminPanel.tsx:52-55 | a filter that names no status shows nobody |
| AdminPanel.CountStatus | AdminPanel.tsx:139 | a card's count is the number of patients with that status, the size of the filtered list |
| AdminPanel.StatusCountsPartition | AdminPanel.tsx:130-159 | the four status counts add up to the number of patients |
| AdminPanel.OverviewWithinTotal | AdminPanel.tsx:130-159 | the waiting, in-progress and completed cards together never exceed the total |
| AdminPanel.OfferedActions | AdminPanel.tsx:291-317 | no action leads to waiting; completed and cancelled have no action; cancel is offered exactly for waiting and in progress |
| AdminPanel.OfferedTransitions | AdminPanel.tsx:291-317 | the offered transitions are exactly waiting to in-progress, in-progress to completed, and waiting or in-progress to cancelled |
| AdminPanel.ActionsMoveForward | AdminPanel.tsx:291-317 | every offered action moves a patient strictly forward in its visit |
| AdminPanel.TraceStages | AdminPanel.tsx:291-317 | along any sequence of offered actions the stage rises by at least one per step |
| AdminPanel.TraceIsShort | AdminPanel.tsx:291-317 | a patient goes through at most three statuses and, once moved on, never waits again |
| AdminPanel.DefaultDepartment | AdminPanel.tsx:30 | the form's department defaults to the first department's name, or '' when there is none |
| AdminPanel.HandleAddPatient | AdminPanel.tsx:35-46 | nothing happens exactly when the name or the department is empty; otherwise the form's fields go to addPatient, and the form resets to an empty name, the default department and medium priority, with its modal closed |
| AdminPanel.ResetFormIsIgnored | AdminPanel.tsx:35-46 | submitting the reset form again does nothing |
| PatientDashboard.FindById | PatientDashboard.tsx:157 | a patient is found exactly when one has the id, and it is the first patient with that id |
| PatientDashboard.ShownPatient | PatientDashboard.tsx:159-168 | an Emergency patient is shown as an emergency in progress with a 5 minute wait, a General patient as waiting medium priority with 30 minutes, and anyone else as stored |
| PatientDashboard.ShownPatientIdempotent | PatientDashboard.tsx:159-168 | adjusting an adjusted patient changes nothing |
| PatientDashboard.SearchOutcome | PatientDashboard.tsx:151-173 | a blank id gives 'Please enter a patient ID'; a missing patient or no booking gives 'Patient not found or no appointment booked yet'; otherwise the found patient is shown adjusted |
| PatientDashboard.Rebooked | PatientDashboard.tsx:187-197 | the user's patient is waiting in the booked department: Emergency as emergency priority, 5 minutes, position 1; any other as medium, 30 minutes, position 2 |
| PatientDashboard.GeneralBookingShownAsStored | PatientDashboard.tsx:159-197 | a General booking is shown by the search exactly as stored |
| PatientDashboard.EmergencyBookingShownInProgress | PatientDashboard.tsx:159-197 | an Emergency booking is stored as waiting but shown by the search as in progress |
| PatientDashboard.RebookAll | PatientDashboard.tsx:187-198 | the user's patients become their rebooked records (department, priority, status, wait and position), the others stay, and the length is kept |
| PatientDashboard.Cleared | PatientDashboard.tsx:221-230 | the patient keeps id and name; department, priority and status become '' and wait and position undefined |
| PatientDashboard.ClearAll | PatientDashboard.tsx:219-233 | only the user's patient is cleared, and the length is kept |
| PatientDashboard.ClearAfterRebook | PatientDashboard.tsx:187-233 | cancelling the last appointment after a booking leaves the same records as cancelling right away |
| PatientDashboard.WithoutAppointment | PatientDashboard.tsx:211 | exactly the appointments with another id remain |
| PatientDashboard.WithoutAbsentAppointment | PatientDashboard.tsx:211 | cancelling an id no appointment has changes nothing |
| PatientDashboard.WithoutAppointmentAppend | PatientDashboard.tsx:211 | the remaining appointments keep their order |
| PatientDashboard.CancelUndoesBooking | PatientDashboard.tsx:201-211 | cancelling an appointment just booked under a fresh id restores the earlier list |
| PatientDashboard.NewAppointment | PatientDashboard.tsx:177-184 | the appointment carries the form's fields, the user's name, status 'scheduled', and the user's patient id or else the typed id |
| PatientDashboard.InitialAppointments | PatientDashboard.tsx:102-115 | the reload holds at most one appointment: the preloaded General appointment 'appt1' of patient '1', and nothing for any other user |
| PatientDashboard.ReloadLosesBooking | PatientDashboard.tsx:115 | an appointment booked under any id but 'appt1' is in the list after the booking and not in the reloaded list |
| PatientDashboard.AverageDepartmentWait | PatientDashboard.tsx:282 | undefined exactly when there are no departments; otherwise the sum of the department waits divided by their number, rounded with halves up |
| PatientDashboard.AverageDepartmentWaitWithin | PatientDashboard.tsx:282 | the rounded average lies between the shortest and the longest department wait |
| PatientDashboard.FindMentioned | PatientDashboard.tsx:291 | the department found is the first in table order whose lower-cased name occurs in the message; none found means no name occurs |
| PatientDashboard.EmptyNameFirstNeverDetails | PatientDashboard.tsx:291-299 | every message names a department with an empty name; when it comes first, the empty name is falsy and the reply is the list or the help, never details |
| PatientDashboard.ForecastFor | PatientDashboard.tsx:314-316 | the forecast for an hour comes from the first prediction for that hour; without one, from the fallback entry, or 0 when that is missing |
| PatientDashboard.Route | PatientDashboard.tsx:249-323 | each branch is taken exactly when its own condition holds and none of the earlier ones in the order appointment, wait, department, greeting, prediction, fallback does; a set context sends every message to its own branch or an earlier one |
| PatientDashboard.Answer | PatientDashboard.tsx:249-323 | each branch answers only with its own kind of reply |
| PatientDashboard.AIResponse | PatientDashboard.tsx:244-324 | the appointment, wait and department replies set the context to their own name; only the other replies leave it at '' |
| PatientDashboard.ContextOnlyRises | PatientDashboard.tsx:249-300 | once a context is set, later messages move only to a context of equal or higher precedence, never back to '' |
| PatientDashboard.AppointmentContextAbsorbing | PatientDashboard.tsx:249-264 | in the appointment context every message gets an appointment reply and the context stays |
| PatientDashboard.AppointmentKeywordFirst | PatientDashboard.tsx:249-264 | a message that mentions an appointment gets an appointment reply, whatever else it says |
| PatientDashboard.OnlyFallbackResets | PatientDashboard.tsx:319-323 | the fallback always resets the context to '', and the context ends at '' only if it started there |
| PatientDashboard.GreetingOnlyWithoutContext | PatientDashboard.tsx:303-307 | a greeting is given only without a context and when no earlier keyword occurs |
| PatientDashboard.Dashboard.HandleSearch | PatientDashboard.tsx:151-173 | only the search result changes, to the search outcome for the typed id |
| PatientDashboard.Dashboard.HandleAppointmentSubmit | PatientDashboard.tsx:175-206 | the user's patient is rebooked, exactly one appointment is appended, the booking flag is set, and the form is cleared with its modal closed |
| PatientDashboard.Dashboard.HandleCancelAppointment | PatientDashboard.tsx:208-241 | without confirmation nothing changes; otherwise the appointments with the id are removed, the booking flag equals "some remain", the user's patient is cleared only when none remain, and the shown patient and result are cleared with the success message set |
| PatientDashboard.Dashboard.UserEffect | PatientDashboard.tsx:100-135 | the effect reloads the preloaded appointments and sets the flag from them; only when the flag was already set for a patient user whose patient exists does it show that patient as the search shows it, and otherwise the shown patient and result stay |
| PatientDashboard.Dashboard.SettleUserEffect | PatientDashboard.tsx:100-135 | the effect run until it stops changing its own dependency, the booking flag: the preloaded list is reloaded, and a patient user's existing patient is shown exactly when the flag was set before or the reload sets it; otherwise the shown patient and result stay |
| PatientDashboard.Dashboard.SubmitAndReload | PatientDashboard.tsx:175-206 | a booking followed by the effect it triggers: the user's patient is rebooked but the new appointment is gone; patient '1' is left with only 'appt1' and any other user with no appointment and the flag off; a patient user's rebooked patient is shown as the search shows it |
| PatientDashboard.Dashboard.CancelAndReload | PatientDashboard.tsx:208-241 | a confirmed cancellation followed by the effect until it settles: the list is the preloaded one again, so for patient '1' the flag is set even after cancelling the last appointment; a patient user's patient is shown again when appointments remain or the user is '1', and otherwise the shown patient and result stay cleared; patient '1' cancelling the last appointment sees the cleared record shown again |
| PatientDashboard.FindClearedUser | PatientDashboard.tsx:221-231 | after the user's records are cleared, looking the user up finds the cleared form of the record found before |
| PatientDashboard.Dashboard.GetAIResponse | PatientDashboard.tsx:244-324 | the reply and the new context are those of the assistant for the current context, message and page data |
| PatientDashboard.Dashboard.CurrentFacts | PatientDashboard.tsx:246 | the patient the assistant talks about is the shown patient, or else the searched one |
| Inventory.MockInventory | InventoryManagement.tsx:30-35 | the page opens with three items, ids 1, 2 and 3 |
| Inventory.Overwrite | InventoryManagement.tsx:58 | the edited item keeps its id and takes the form's name, quantity and category |
| Inventory.ApplyForm | InventoryManagement.tsx:57-59 | update keeps the list's length, order and ids, changes only the items with the selected id, and gives them the form's fields |
| Inventory.ApplyFormIdempotent | InventoryManagement.tsx:57-59 | applying the same update twice is applying it once |
| Inventory.UnchangedEditKeepsItems | InventoryManagement.tsx:57-59 | submitting an edit without changing the form leaves the list as it was |
| Inventory.Without | InventoryManagement.tsx:64-66 | no item with the deleted id is left |
| Inventory.WithoutMembers | InventoryManagement.tsx:64-66 | exactly the items with another id remain |
| Inventory.WithoutAbsent | InventoryManagement.tsx:64-66 | deleting an absent id is a no-op |
| Inventory.DeleteIdempotent | InventoryManagement.tsx:64-66 | deleting twice is deleting once |
| Inventory.WithoutAppend | InventoryManagement.tsx:64-66 | delete keeps the others in order |
| Inventory.DeleteUndoesAdd | InventoryManagement.tsx:42-66 | deleting an item just added under a fresh id gives back the earlier list |
| Inventory.DeleteAfterUpdate | InventoryManagement.tsx:57-66 | deleting an item after editing it is deleting it right away |
| Inventory.InventoryPage.AddItem | InventoryManagement.tsx:38-51 | with an empty name or category or a zero quantity nothing changes; otherwise exactly one item with the form's fields is appended and the form resets |
| Inventory.InventoryPage.UpdateItem | InventoryManagement.tsx:53-62 | with no selection or an invalid form nothing changes; otherwise the selected id's items take the form and the form and selection reset |
| Inventory.InventoryPage.DeleteItem | InventoryManagement.tsx:64-66 | the list loses the items with the id; the form and selection stay |
| Inventory.InventoryPage.EditItem | InventoryManagement.tsx:177-178 | the item is selected and its fields fill the form |
| Inventory.InventoryPage.CancelEdit | InventoryManagement.tsx:135-136 | the form is cleared and nothing is selected |
| Analytics.FirstMaxIndex | AnalyticsPage.tsx:179-181 | the reduce ends on an element no other element exceeds, and every earlier element is strictly smaller, so ties go to the earliest |
| Analytics.TotalPatientsAppend | AnalyticsPage.tsx:164 | the total over two spans of days is the sum of their totals |
| Analytics.AverageWait | AnalyticsPage.tsx:170-172 | 0 without days; otherwise the sum of the daily averages divided by the number of days, rounded |
| Analytics.AverageWaitWithin | AnalyticsPage.tsx:170-172 | the average wait lies between the shortest and the longest daily average |
| Analytics.BusiestDay | AnalyticsPage.tsx:178-182 | none exactly when there are no days; otherwise the first day with the most patients served |
| Analytics.BusiestWithinTotal | AnalyticsPage.tsx:164-181 | with no negative counts, the busiest day never served more than the whole span |
| Analytics.FirstPeakCount | AnalyticsPage.tsx:107-108 | the count of the first peak entry for the hour, or 0 when the day has none |
| Analytics.HourCountAppend | AnalyticsPage.tsx:106-109 | counting an hour over two spans of days adds their counts |
| Analytics.HourCountUnrecorded | AnalyticsPage.tsx:106-109 | an hour no day records counts 0 |
| Analytics.HourLabel | AnalyticsPage.tsx:105 | the label is the decimal number of the hour, or of the hour minus 12 after noon, followed by "am" up to 12 and "pm" after (so 12 reads "12am" and 13 "1pm") |
| Analytics.HourLabelsDistinct | AnalyticsPage.tsx:104-105 | the twelve hours from 8 to 19 get twelve different labels |
| Analytics.HourCounts | AnalyticsPage.tsx:104-111 | twelve counts, for the hours 8 to 19 in order |
| Analytics.PeakHoursData | AnalyticsPage.tsx:104-111 | exactly 12 rows, hours 8 to 19 in order, each with its label and its count over the days |
| Analytics.PeakHourIndex | AnalyticsPage.tsx:188-191 | the row the Peak Hour reduce ends on has the largest count, and every earlier row a smaller one |
| Analytics.PeakHourLabel | AnalyticsPage.tsx:186-192 | Peak Hour is the label of that row's hour |
| Analytics.DepartmentData | AnalyticsPage.tsx:113-118 | one row per department: a zero average wait shows as 10 + 5 x index and a zero waiting count as 5 + 3 x index |
| Analytics.DepartmentBarsPositive | AnalyticsPage.tsx:113-118 | with no negative figures every department bar is positive |
| Analytics.WithActual | AnalyticsPage.tsx:120-121 | only predictions with an actual count are kept |
| Analytics.WithActualMembers | AnalyticsPage.tsx:120-121 | exactly the predictions with an actual count are kept |
| Analytics.WithActualAppend | AnalyticsPage.tsx:120-121 | the kept predictions stay in order |
| Analytics.AccuracyRowOf | AnalyticsPage.tsx:122-126 | a row reads `${hour}:00` with the predicted and the actual count |
| Analytics.PredictionAccuracyData | AnalyticsPage.tsx:120-126 | one row per kept prediction, in order |
| Analytics.AllRecordedKeepsAll | AnalyticsPage.tsx:120-121 | with every actual count recorded, every prediction gets a row |
| AIPredictions.BedFilter | AIPredictions.tsx:152-153 | every kept forecast matches the department filter ('all' keeps any) and meets the confidence threshold |
| AIPredictions.BedFilterMembers | AIPredictions.tsx:152-153 | exactly the matching forecasts are kept |
| AIPredictions.BedFilterAppend | AIPredictions.tsx:152-153 | the filter keeps the hourly order |
| AIPredictions.RowLimit | AIPredictions.tsx:154 | the window shows 24 rows for '24h', 12 for '12h' and 6 otherwise |
| AIPredictions.FilteredBedPredictions | AIPredictions.tsx:152-154 | a prefix of the matching forecasts, as long as the window allows |
| AIPredictions.WiderWindowExtends | AIPredictions.tsx:154 | a wider window shows the narrower window's rows first |
| AIPredictions.InventoryFilter | AIPredictions.tsx:156-157 | every kept row's category equals the lower-cased filter ('all' keeps any) and meets the threshold |
| AIPredictions.InventoryFilterMembers | AIPredictions.tsx:156-157 | exactly the matching rows are kept |
| AIPredictions.InventoryFilterIgnoresCase | AIPredictions.tsx:157 | a filter and its lower-case form select the same rows |
| AIPredictions.DepartmentOrAll | AIPredictions.tsx:141 | a missing or empty department is written as All |
| AIPredictions.BedCsvLines | AIPredictions.tsx:133-144 | the bed CSV splits at line breaks into the header followed by one unquoted line per row, so it has one line more than there are rows and no trailing newline |
| AIPredictions.InventoryCsvLines | AIPredictions.tsx:133-144 | the same for the inventory CSV |
| AIPredictions.BedLineOneLine | AIPredictions.tsx:141 | a bed line holds no line break when its department holds none |
| AIPredictions.InventoryLineOneLine | AIPredictions.tsx:142 | an inventory line holds no line break when its name and category hold none |
| AIPredictions.MeanOrZero | AIPredictions.tsx:217 | 0 for no rows; otherwise the arithmetic mean |
| AIPredictions.MeanWithin | AIPredictions.tsx:217 | a non-empty list's mean lies between its smallest and largest element |
| AIPredictions.DepartmentLoads | AIPredictions.tsx:214-218 | one value per chart department: the mean of the occupied beds of exactly that department's shown forecasts, in order, or 0 without any |
| AIPredictions.DepartmentLoadWithin | AIPredictions.tsx:214-218 | each department's load lies within the occupancy range of its own forecasts |
| AIPredictions.OccupiedInMembers | AIPredictions.tsx:216 | the averaged values are exactly the occupied beds of the forecasts for that department |
| AIPredictions.OccupiedInAppend | AIPredictions.tsx:216 | the forecasts are taken one by one in order, so selecting from a concatenation selects from each part |
| AIPredictions.CategoryLoads | AIPredictions.tsx:219-222 | one value per category: the mean of the current quantities of exactly that category's shown rows, in order, or 0 without any |
| AIPredictions.QuantityInMembers | AIPredictions.tsx:220 | the averaged values are exactly the current quantities of the rows in that category |
| AIPredictions.QuantityInAppend | AIPredictions.tsx:220 | the rows are taken one by one in order, so selecting from a concatenation selects from each part |
| AIPredictions.OtherCategoriesEmpty | AIPredictions.tsx:156-222 | a category filter other than 'all' leaves every other category without rows |
| LoginPage.ParseDiseases | Login.tsx:38 | an empty field gives []; otherwise commas + 1 pieces, each comma-free and trimmed, and each the matching comma-separated piece of the field with only the whitespace around it removed; empty pieces kept |
| LoginPage.ParseJoinedDiseases | Login.tsx:38 | names without commas or surrounding spaces, written comma-separated, parse back to the same list |
| LoginPage.SignupArguments | Login.tsx:38-51 | patient details go only with a patient sign-up and staff details only with an admin sign-up; empty phone, gender, age or department are undefined, and so is an empty diseases list |
| LoginPage.SignupAccountRoleFields | Login.tsx:36-52 | a staff account made through the page carries the non-empty employee id and no patient details; a patient account carries no staff details |
| LoginPage.RedirectTarget | Login.tsx:22 | the saved `from` path if present, else '/admin' for admins and '/patient-dashboard' for patients |
| LoginPage.LoginForm.HandleLogin | Login.tsx:24-32 | without a username and a password nothing happens; otherwise the page navigates exactly when the login succeeds |
| LoginPage.LoginForm.HandleSignup | Login.tsx:34-56 | without the required fields, or with a taken username or e-mail, nothing is registered and there is no redirect; otherwise exactly the shaped account is appended and the page redirects |
| LoginPage.LoginForm.ToggleLoginType | Login.tsx:58-69 | patient and admin swap and all nine fields are cleared |
| LoginPage.LoginForm.ToggleAuthMode | Login.tsx:71-82 | login and sign-up swap and all nine fields are cleared |

## Left out

- Promises and `setTimeout`. The asynchronous wrappers of mockData.ts and
  queueService.ts are modelled as synchronous operations. The errors thrown
  inside a timer callback (mockData.ts:318, 335) are modelled as `Err`
  results. In the source they never reject the promise.
- Randomness and clocks. The random wait times, ids and prediction base, the
  current date and hour, and `Date.now()` ids are parameters.
  `simulatePredictions` and the random filling of missing analytics days are
  not modelled: the page's inputs are given as lists.
- MockData.AdmissionWait: multiplies by exact tenths and rounds halves up. It
  does not model IEEE-754 products such as 1.5 x average. The same holds for
  LiveQueue.ScaledWait and QueueService.PredictedWaitTime.
- Common.Trim: removes only space, tab, line feed and carriage return, not
  JavaScript's full whitespace set. `toLowerCase` is modelled on ASCII
  letters only.
- `parseInt` of the age and quantity fields. The model receives the parsed
  integer, so `|| 0` on NaN is not modelled.
- The browser's localStorage. The registered accounts are loaded into and
  saved from `QueueService.UserRegistry`, but storage itself is left out.
- `AuthContext` and `QueueContext`. They are thin asynchronous wrappers with
  loading and error flags. `LoginForm.HandleLogin` and `HandleSignup` call
  the service functions directly.
- Rendering, routing, charts, toasts, colours and the Blob/saveAs download
  of the CSV text.
- `window.confirm` is a boolean parameter of
  `Dashboard.HandleCancelAppointment`. The notification toggle and `alert`
  of the live queue are not modelled.
- The live queue's auto-refresh interval.
- PatientDashboard.Dashboard.HandleAppointmentSubmit: states only the
  handler's own updates. The user effect (PatientDashboard.tsx:100-135)
  depends on `patients` and the booking flag, so it runs again right after.
  It overwrites `appointments`, `hasBookedAppointment`, `currentPatient` and
  `searchResult`. That sequence is `Dashboard.SubmitAndReload`.
- PatientDashboard.Dashboard.HandleCancelAppointment: states only the
  handler's own updates. The user effect runs after it and overwrites the
  same four fields. When it changes the booking flag it runs a second time
  (`Dashboard.SettleUserEffect`), which for patient '1' shows the cleared
  record again. That sequence is `Dashboard.CancelAndReload`.
- The first render's appointment list, which wraps the preloaded list in one
  more array (PatientDashboard.tsx:74-89). The user effect replaces it before
  anything reads it.
- `handleChatSubmit`, which only appends messages and calls the assistant.
- The assistant's reply texts are constructors of `Reply` that carry the
  values the texts interpolate. The wording and date formatting are not
  modelled.
- The analytics date-range selection and date formatting. The model
  receives the selected days. Busiest Day is that day's record rather than
  its formatted date. Average wait is the number without the " min" suffix.
- The AI predictions refresh button. It calls a function outside its scope,
  so it has no behaviour to model.
- StaffManagement.tsx is not part of this model.
- Inventory.InventoryPage.EditItem: after an edit the source's form object
  also carries the item's id (InventoryManagement.tsx:178). Update only
  writes it back onto items with that same id, so the model's form omits it.
- PatientDashboard.DashPatient: the dashboard's own record holds priority and
  status as text, because cancelling writes '' into them. The live queue and
  the tables use the typed `Types.Patient`, whose wait is always present, so
  the `|| 0` default of the waiting-list comparator never applies.

## Findings

| source | as written | input that shows it | evidently intended | confidence | as-written member | corrected member |
|---|---|---|---|---|---|---|
| PatientDashboard.tsx:100-135 | the user effect lists `patients` and `hasBookedAppointment` as dependencies, so it runs after every booking and replaces the appointments with the preloaded list | the page's own user, patient '1', books an appointment: the list goes back to the single 'appt1', and the new booking is gone (for any other user the list becomes empty and the flag false) | the effect loads the preloaded list when the user changes, so a booking stays listed | not executed | PatientDashboard.Dashboard.SubmitAndReload | PatientDashboard.Dashboard.HandleAppointmentSubmit |
