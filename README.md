# Leave-request lifecycle: a Dafny model

This project models the client-side core of a leave-management portal built on Microsoft identity and the Microsoft Graph API:

- the in-memory **leave-request store** (append a pending request with a fresh id; set a status by id);
- the **submit workflow** of the request form (guards, token, store append, then the calendar event);
- the **manager dashboard** (approve/reject, the pending list, de-duplicated requester ids, the per-user lookup loop);
- the **usage statistics** (per-type sum of day differences over approved requests, against the fixed quotas 20/10/5);
- the **project page** (workspace-to-project mapping, the optimistic assignment list, per-project teams, the load flow);
- the **calendar event payload** posted to `/me/events`.

Each component gets one module. The store and the component states are classes whose methods update their fields. Filters, maps and folds are functions with lemmas. The statistics reduce is a method with a loop, proved against a specification function.

Outside calls become inputs:
- the access token is an `Option<string>`, and "no token" is JavaScript falsiness (absent or empty);
- a Graph lookup or POST is a per-call outcome (`Lookup`, `Fetch<T>`);
- a thrown value is either an `Error` with a message or something else.

Dates are whole day numbers counted from 1970-01-01 at UTC midnight. `differenceInDays` is their difference. `toISOString` is computed from the day number: split it into 400-year eras, then walk the years of the era.

Three behaviours of the code that a reader might not expect, which the model keeps:
- A status can be changed again after a decision (`LeaveStore.LastUpdateWins`). Nothing makes approved or rejected final.
- A missing token makes submit return silently: no store change, no calendar call, and no error is shown to the user.
- `startDate <= endDate` is never checked (`LeaveRequestForm.BackwardRangeIsSubmitted`, `LeaveStatistics.BackwardRangeCountsNegative`).

## Model

| member | source | states |
|---|---|---|
| `LeaveStore.NewRecord` | src/store/leaveStore.ts:25-29 | the new record carries exactly the caller's userId, dates, type and notes, the supplied id, and status pending |
| `LeaveStore.WithStatus` | src/store/leaveStore.ts:34-36 | same length and order; records with the id get the new status and nothing else changes in them; other records are untouched |
| `LeaveStore.UnknownIdIsNoOp` | src/store/leaveStore.ts:34-36 | an id no record holds leaves the whole sequence unchanged |
| `LeaveStore.WithStatusKeepsDrafts` | src/store/leaveStore.ts:34-36 | an update keeps the set of ids and every record's id, requester, dates, type and notes |
| `LeaveStore.LastUpdateWins` | src/store/leaveStore.ts:32-37 | the current status is not checked: two updates of one id equal the second update alone |
| `LeaveStore.UpdateTouchesAtMostOne` | src/store/leaveStore.ts:34-36 | with unique ids, of any two records at least one is left unchanged |
| `LeaveStore.UpdateOfOneRecord` | src/store/leaveStore.ts:34-36 | with unique ids, updating the id of record k gives the old sequence with only record k's status replaced |
| `LeaveStore.Store.constructor` | src/store/leaveStore.ts:19-20 | the store starts empty and its invariant (unique ids below the supply counter) holds |
| `LeaveStore.Store.AddRequest` | src/store/leaveStore.ts:21-31 | the sequence grows by exactly the new record at the end; earlier records stay as they were; the new id is held by no earlier record; ids stay unique |
| `LeaveStore.Store.UpdateRequest` | src/store/leaveStore.ts:32-37 | the new sequence is `WithStatus` of the old one; ids stay unique |
| `LeaveStatistics.LeaveQuota.Add` | src/components/features/LeaveStatistics.tsx:32 | `acc[type] += days` moves only the counter of that type |
| `LeaveStatistics.ApprovedRequests` | src/components/features/LeaveStatistics.tsx:28 | the filtered list is no longer than the store |
| `LeaveStatistics.ApprovedRequestsMembers` | src/components/features/LeaveStatistics.tsx:28 | a request is in the filtered list exactly when it is in the store with status approved |
| `LeaveStatistics.CalculateUsedDays` | src/components/features/LeaveStatistics.tsx:28-38 | filter then reduce yields, per type, the sum of day differences over approved requests of that type |
| `LeaveStatistics.SumOfApprovedIsUsedDays` | src/components/features/LeaveStatistics.tsx:28-33 | summing over the filtered list equals summing each request's contribution over the whole store |
| `LeaveStatistics.NothingUsedInitially` | src/components/features/LeaveStatistics.tsx:34-38 | the accumulator starts at zero for vacation, sick and personal, as does the empty store |
| `LeaveStatistics.UnapprovedAddsNothing` | src/components/features/LeaveStatistics.tsx:28 | a pending or rejected request never changes any counter |
| `LeaveStatistics.ApprovedAddsToOwnType` | src/components/features/LeaveStatistics.tsx:31-32 | an approved request adds its day difference to its own type and leaves the other two counters unchanged |
| `LeaveStatistics.NoApprovedNoDays` | src/components/features/LeaveStatistics.tsx:28-38 | with no approved request all counters are zero |
| `LeaveStatistics.UsedDaysIgnoresOrder` | src/components/features/LeaveStatistics.tsx:30-33 | any reordering of the store gives the same counters |
| `LeaveStatistics.BackwardRangeCountsNegative` | src/components/features/LeaveStatistics.tsx:31 | no clamping: an approved request ending before its start contributes a negative amount |
| `LeaveStatistics.SubmissionKeepsUsage` | src/components/features/LeaveStatistics.tsx:28 | appending a new (pending) record leaves every counter unchanged |
| `LeaveStatistics.ApprovalAddsDays` | src/components/features/LeaveStatistics.tsx:28-33 | approving a pending request with a unique id adds its day difference to its own type's counter only |
| `LeaveStatistics.UsagePercent` | src/components/features/LeaveStatistics.tsx:55 | the progress value times the quota is 100 times the used days; the quotas are the positive constants 20/10/5, so no division by zero |
| `LeaveStatistics.LeaveStatisticsView.constructor` | src/components/features/LeaveStatistics.tsx:21-25 | `usedDays` starts at zero for all three types |
| `LeaveStatistics.LeaveStatisticsView.OnRequestsChanged` | src/components/features/LeaveStatistics.tsx:27-41 | after the effect, each counter is the approved-only per-type sum over the given requests |
| `Calendar.YearOfEra` | src/services/calendarService.ts:27 | the day found within a year is below that year's length, so at most 365 |
| `Calendar.MonthDay` | src/services/calendarService.ts:27 | the month and day exist (February 29 only on the last day of the March-based year), and the month's start plus the day gives back the day within the year |
| `Calendar.YearOfEraSpends` | src/services/calendarService.ts:27 | the year walk stays inside the era and keeps whole years before plus day within equal to the day of the era |
| `Calendar.MarchDate` | src/services/calendarService.ts:27 | a day within a March-based year is a valid calendar date; the year is the era's year, plus one for January and February; the month's start plus the day gives back the day within the year |
| `Calendar.CivilFromDays` | src/services/calendarService.ts:27 | the UTC date of a day number is a valid calendar date (month in 1..12, day within that month, February 29 only in leap years) |
| `Calendar.DaysFromMarchDate` | src/services/calendarService.ts:27 | the closed-form day number of a March-based date is its era's days plus the years before plus the day within |
| `Calendar.CivilRoundTrip` | src/services/calendarService.ts:27 | the independent closed-form day number of the date `CivilFromDays` gives is the day number it started from, so the date is the right one |
| `Calendar.ToIsoString` | src/services/calendarService.ts:27 | for years 0..9999 the ISO string has length 24 with `-` at 4 and 7 and `T` at 10 |
| `Calendar.CreateCalendarEvent` | src/services/calendarService.ts:16-41 | no post exactly when the token is empty; otherwise one post to `/me/events` whose event reads back as "type Leave", both dates in ISO form with time zone UTC, the notes verbatim as text, shown as out of office |
| `LeaveRequestForm.MissingInputMakesNoCall` | src/components/features/LeaveRequestForm.tsx:33 | submit makes no call at all, not even for a token, exactly when a date or the account is missing |
| `LeaveRequestForm.AtMostOneAppend` | src/components/features/LeaveRequestForm.tsx:35-47 | there is a store append exactly when the inputs are present and a token came back, and never two |
| `LeaveRequestForm.AppendPrecedesCalendar` | src/components/features/LeaveRequestForm.tsx:41-55 | the token is requested first; the append comes right before the calendar call; the append's userId is the account id; the calendar call gets the same dates, type and notes plus the token, and posts an event |
| `LeaveRequestForm.AppendCarriesFormFields` | src/components/features/LeaveRequestForm.tsx:33-47 | with dates, an account and a token, the token comes first and the appended record carries the account id and the form's start, end, type and notes |
| `LeaveRequestForm.BackwardRangeIsSubmitted` | src/components/features/LeaveRequestForm.tsx:33 | only presence of the dates is checked: an end before the start is appended as given |
| `LeaveRequestForm.LeaveRequestFormView.constructor` | src/components/features/LeaveRequestForm.tsx:20-27 | initial type vacation, empty notes, range from today to today |
| `LeaveRequestForm.LeaveRequestFormView.HandleSubmit` | src/components/features/LeaveRequestForm.tsx:29-56 | the calls made are `SubmitEffects`; the store gains exactly the drafted record when the append is made and is unchanged otherwise; a failed calendar POST rejects the handler's promise, which nothing catches; the model returns `CalendarFailed` for it; the record stays |
| `ManagerDashboard.DecisionStatus` | src/components/features/ManagerDashboard.tsx:74 | approve gives approved, reject gives rejected, never pending |
| `ManagerDashboard.HandleApproval` | src/components/features/ManagerDashboard.tsx:73-84 | one status update with the decided status; the id supply is untouched; the calendar placeholder at :81 does nothing |
| `ManagerDashboard.PendingRequests` | src/components/features/ManagerDashboard.tsx:86 | exactly the pending requests of the store, no more than the store holds |
| `ManagerDashboard.PendingAppend` | src/components/features/ManagerDashboard.tsx:86 | appending any record extends the pending list by that record when it is pending and leaves it alone otherwise |
| `ManagerDashboard.PendingConcat` | src/components/features/ManagerDashboard.tsx:86 | the pending list of two stores joined is the first one's followed by the second one's, so store order is kept |
| `ManagerDashboard.DecisionLeavesPending` | src/components/features/ManagerDashboard.tsx:74-86 | after a decision the pending list is the old one without the decided id, in the same order |
| `ManagerDashboard.SubmissionIsPending` | src/components/features/ManagerDashboard.tsx:86 | a newly appended request appears at the end of the pending list |
| `ManagerDashboard.Distinct` | src/components/features/ManagerDashboard.tsx:46 | no duplicates and the same elements as the input |
| `ManagerDashboard.DistinctKeepsFirstOccurrenceOrder` | src/components/features/ManagerDashboard.tsx:46 | the de-duplicated ids are in order of first occurrence |
| `ManagerDashboard.UserIds` | src/components/features/ManagerDashboard.tsx:46 | each requester id appears exactly once, and only requester ids appear |
| `ManagerDashboard.EnrichedEntries` | src/components/features/ManagerDashboard.tsx:48-63 | an entry exists exactly for earlier entries and successfully looked-up ids; a success stores `{id, displayName, email: mail}`; other earlier entries are kept |
| `ManagerDashboard.EnrichedSize` | src/components/features/ManagerDashboard.tsx:48-63 | with distinct new ids, the map gains one entry per successful lookup and none per failure |
| `ManagerDashboard.ManagerDashboardView.constructor` | src/components/features/ManagerDashboard.tsx:22-26 | empty details, loading, no error, not yet fetched |
| `ManagerDashboard.ManagerDashboardView.LookUpUsers` | src/components/features/ManagerDashboard.tsx:48-67 | one lookup per id in order; details are the enriched map; loading is cleared iff at least one id was processed |
| `ManagerDashboard.ManagerDashboardView.FetchUserDetailsAsWritten` | src/components/features/ManagerDashboard.tsx:29-68 | a second run does nothing; without a token the error is "Access token not available", loading is cleared and nothing is looked up; with a token every requester is looked up once and loading stays set when there are none |
| `ManagerDashboard.ManagerDashboardView.FetchUserDetails` | src/components/features/ManagerDashboard.tsx:29-68 | as above, with loading cleared after every first run |
| `ManagerDashboard.EmptyStoreKeepsLoader` | src/components/features/ManagerDashboard.tsx:48-67 | with a token and an empty store, the fetch as written leaves the dashboard loading |
| `ManagerDashboard.EmptyStoreClearsLoader` | src/components/features/ManagerDashboard.tsx:48-67 | the corrected fetch clears loading in the same situation |
| `ProjectAssignment.ToProjects` | src/components/features/ProjectAssignment.tsx:76-81 | same length and order; each project has its workspace's id, title = name, description or `''`, status active |
| `ProjectAssignment.ProjectsDetermineWorkspaces` | src/components/features/ProjectAssignment.tsx:76-81 | the transform is one-to-one on workspaces that carry a description |
| `ProjectAssignment.TeamOf` | src/components/features/ProjectAssignment.tsx:169-170 | exactly the assignments for that project |
| `ProjectAssignment.AssignmentJoinsOneTeam` | src/components/features/ProjectAssignment.tsx:169-170 | an appended assignment joins the end of its own project's team and no other team |
| `ProjectAssignment.RepeatedAssignmentIsKept` | src/components/features/ProjectAssignment.tsx:101 | no de-duplication: assigning the same user twice lists them twice |
| `ProjectAssignment.PermissionGrant` | src/components/features/ProjectAssignment.tsx:112-120 | the POST goes to `/sites/<projectId>/permissions` of the given project, and the body grants exactly `[role]` to exactly one identity, the given user |
| `ProjectAssignment.UsersOrEmpty` | src/components/features/ProjectAssignment.tsx:67 | an absent user list becomes the empty list |
| `ProjectAssignment.ProjectAssignmentView.constructor` | src/components/features/ProjectAssignment.tsx:36-42 | no projects, assignments or users, loading, no error, not fetched |
| `ProjectAssignment.ProjectAssignmentView.FetchData` | src/components/features/ProjectAssignment.tsx:45-94 | a second run and a run without a token send no GET; otherwise `/users` is requested, and `/me/followedSites` only after `/users` succeeded; a second run changes nothing; no token sets the error and nothing else; a users failure sets the error; a workspace failure sets the error but keeps the users; loading is cleared on every first run |
| `ProjectAssignment.ProjectAssignmentView.HandleAssignment` | src/components/features/ProjectAssignment.tsx:99-125 | the assignment is appended first and stays; no post without a token; otherwise the permission grant is posted and a failure only sets the error |
| `ProjectAssignment.ProjectAssignmentView.SelectMember` | src/components/features/ProjectAssignment.tsx:156 | the selector appends the user with role `Member` and posts that role |

## Findings

| source | as written | input that shows it | evidently intended | confidence | as-written member | corrected member |
|---|---|---|---|---|---|---|
| src/components/features/ManagerDashboard.tsx:48-67 | `loading` is cleared only in the `finally` of the per-user loop | a valid token and a store with no requests: the loop runs zero times, so the dashboard shows its loader forever and never reaches "No pending leave requests" | clear `loading` once the fetch is over, whatever the number of requesters | not executed; high | `ManagerDashboard.ManagerDashboardView.FetchUserDetailsAsWritten`, shown by `ManagerDashboard.EmptyStoreKeepsLoader` | `ManagerDashboard.ManagerDashboardView.FetchUserDetails`, shown by `ManagerDashboard.EmptyStoreClearsLoader` |

## Left out

- Token acquisition and login through MSAL are not modelled. The token `getToken` yields is an input, and the signed-in account is an `Option` input.
- Graph HTTP calls (`/users`, `/users/{id}`, `/me/followedSites`, `/sites/{id}/permissions`, `/me/events`) are not modelled; each response is an outcome input. The model records which requests are made: the GET paths of `FetchData` in order, the ids looked up through `/users/{id}`, the permission POST and the `/me/events` POST. The `$select` query and the client library are not modelled.
- `createCalendarEvent` is modelled as the post it would make. Whether that POST succeeds is an input of `HandleSubmit`.
- LeaveRequestForm.LeaveRequestFormView.HandleSubmit: a failed calendar POST rejects the handler's promise and nothing catches it; the model turns that rejection into the returned outcome `CalendarFailed`. No error is shown to the user, and the unhandled rejection itself is not modelled.
- Time of day, time zones and daylight saving are left out. Dates are whole UTC days, so `differenceInDays` is an exact subtraction and `toISOString` always ends in `T00:00:00.000Z`. `new Date()` for today is the constructor's input.
- Calendar.ToIsoString: not proved injective, and no parser from the string back to a day number is given; the date under it is pinned by `Calendar.CivilRoundTrip`.
- Calendar.ToIsoString: returns a string for every day number, whereas JavaScript's `toISOString` throws a RangeError more than 100,000,000 days from 1970-01-01; the date picker never produces such a date.
- Calendar.CivilFromDays: only the round trip from day number to date and back is proved; the other direction (every valid date is reached) is not.
- `crypto.randomUUID` is replaced by a counter in the store that hands out fresh natural-number ids. Only the uniqueness of ids is modelled.
- The progress bars are left out as floating point. Their value is stated as an exact rational (`UsagePercent`).
- Async interleaving, React effect scheduling, re-renders and unmount races are not modelled. This includes stale `requests` in the approval closure and functional `setState` updates racing each other. Each handler runs to completion on the state it is given.
- The effect re-run when `requests` change is left out. `fetchedRef` turns it into a no-op, and a second call of the fetch methods models that.
- The approval calendar step is an empty placeholder in the source and has no effect here. The `requests.find` before it has no effect either.
- A `/me/followedSites` response without a `value` field is not modelled. In the source, `map` on it throws an engine-specific TypeError.
- Console logging, the error card's dismiss, the loader and all markup are not modelled. The calendar page, layout, profile page, routing and UI widgets are presentation only.
- ProjectAssignment.ProjectAssignmentView.SelectMember: states only the appended assignment and the posted role. The rest of its effect is that of `HandleAssignment`.
