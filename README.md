# Request workflow of the employee dashboard, modelled in Dafny

This project models the request workflow of a role-based HR web application. Employees file
three kinds of request: vacation, fund and general. Each POST runs a cascade of checks. It then
stores one PENDING row owned by the caller's own employee profile. The GET of each kind answers
ADMIN, HR and MANAGER with every row. Everyone else gets only their own rows, or 404 without a
profile. Rows come back newest first. On the client, the admin dashboard, the employee dashboard
and the incidents page merge, sort, count and filter these lists.

Modules, one per source file or shared concern:

- `Wrappers`: Option and Result.
- `Text`: ASCII lower-casing and `includes`.
- `Seqs`: `filter`, counting, the stable newest-first sort and `new Set` de-duplication.
- `Fetch`: ok / not-ok responses as the client sees them.
- `Time`: the length of a day in milliseconds.
- `ApiUtils`: `src/lib/api-utils.ts`, plus the privileged-role set and the shared `catch` block.
- `RequestStore`: the request tables as a class `Store<D>`, one instance per kind, and the
  GET query that the three routes share.
- `VacationRoute`, `FundRoute`, `GeneralRoute`: each POST. It is a pure `CheckPost`, the guard
  cascade in source order, and an imperative `Post` method that appends to the store.
- `AdminDashboard`, `EmployeeDashboard`, `IncidentsPage`: each page's state as a class whose
  methods update it. The values the page derives from that state are pure functions.

Inputs that the source takes from its environment are parameters here:

- the session (`Option<Session>`);
- the server clock `now`, in milliseconds;
- the parsed request body (`None` when `req.json()` or the destructuring would throw);
- `parseFloat` (None for NaN) and the FundType enumeration;
- each `fetch` result;
- the browser's time-zone offset, as a function of the instant (so daylight saving time is
  covered).

Modelling choices and consequences of the code as written:

- The GET routes order by `createdAt` descending and leave the order of equal timestamps to the
  database. The model lists equal timestamps in insertion order
  (`ListKeepsInsertionOrderOnTies`). That is a choice of this model, not something the code
  promises. The client-side `sort` is stable as written.
- The vacation route answers 'Start date cannot be in the past' when `start < new Date()`
  (src/app/api/requests/vacation/route.ts:90). That compares with the current millisecond, not
  the current day, so a vacation starting at midnight of today is already rejected.
- The general route applies the MEDIUM default while destructuring, before the required-field
  check. Only an omitted `priority` is defaulted. An explicit `null` or `''` is rejected as
  'Invalid priority level'.

## Model

| member | source | states |
|---|---|---|
| `ApiUtils.GetAuthenticatedUser` | src/lib/api-utils.ts:6-14 | fails with 'Unauthorized' exactly when there is no session or no user in it; otherwise returns that user unchanged |
| `ApiUtils.RequireRole` | src/lib/api-utils.ts:16-20 | passes iff the role is in the list, else fails with 'Insufficient permissions'; an empty list always fails |
| `ApiUtils.CreateErrorResponse` | src/lib/api-utils.ts:22-24 | body is `{error: message}`; status defaults to 400, otherwise is the one given |
| `ApiUtils.CreateSuccessResponse` | src/lib/api-utils.ts:26-28 | body is the payload unchanged; status defaults to 200, otherwise is the one given |
| `ApiUtils.ProfileId` | src/app/api/requests/vacation/route.ts:72-74 | a profile counts only when present with a non-empty id, and then yields that id |
| `ApiUtils.IsPrivileged` | src/app/api/requests/vacation/route.ts:12 | ADMIN, HR and MANAGER are privileged, EMPLOYEE is not (the same test guards the incident actions at src/app/dashboard/incidents/page.tsx:403) |
| `ApiUtils.CatchResponse` | src/app/api/requests/vacation/route.ts:122-127 | the exception 'Unauthorized' maps to 401 'Unauthorized', every other one to 500 'Internal server error' |
| `RequestStore.Truthy` | src/app/api/requests/fund/route.ts:77 | an absent (undefined or null) field and the empty string are falsy, a non-empty string is truthy, as the `!field` tests at fund/route.ts:77 and general/route.ts:77 read them |
| `RequestStore.PriorityNamed` | src/app/api/requests/general/route.ts:81-83 | exactly the four names LOW, MEDIUM, HIGH, URGENT are Priority members, each naming its own member |
| `RequestStore.Store.constructor` | src/app/api/requests/vacation/route.ts:14 | the initial state of the table that `findMany` reads before any request is filed: empty, and valid (ids distinct) |
| `RequestStore.Store.Insert` | src/app/api/requests/vacation/route.ts:98-121 | appends exactly one row, PENDING, owned by the given employee, stamped `now`, with an id no earlier row has; earlier rows unchanged |
| `RequestStore.ListRequests` | src/app/api/requests/vacation/route.ts:6-66 | 401 without a user; privileged roles get a permutation of all rows and no profile check; others without a profile get 404; others get exactly their own rows, each as often as stored; every 200 list is sorted by createdAt descending |
| `RequestStore.ListKeepsInsertionOrderOnTies` | src/app/api/requests/vacation/route.ts:27-29 | rows with equal createdAt are listed in insertion order |
| `RequestStore.CreatorSeesOwnRequest` | src/app/api/requests/vacation/route.ts:12-59 | a row appended for the caller's own employee id appears in the caller's next listing, whatever the role |
| `VacationRoute.DaysRequested` | src/app/api/requests/vacation/route.ts:94-96 | the count n satisfies (n - 2) days < end - start <= (n - 1) days: the ceiling of the span in days, plus one |
| `VacationRoute.CeilDiv` | src/app/api/requests/vacation/route.ts:95-96 | the result is the least r with a <= b*r: exact ceiling division |
| `VacationRoute.CheckPost` | src/app/api/requests/vacation/route.ts:68-96 | errors in source order: 401, 404 before the body is read, 500 on a malformed body, 400 dates required, 400 end not after start (even on a past same-day request), 400 start in the past; accepted iff all pass, and then owner = caller's profile id, dates as given, the stored day count equals `DaysRequested` of the two dates (so >= 2), reason '' when absent |
| `VacationRoute.Post` | src/app/api/requests/vacation/route.ts:68-128 | on any failed check answers that error and inserts nothing; otherwise appends one PENDING row owned by the caller and answers 201 with it |
| `VacationRoute.AcceptedSpansAtLeastTwoDays` | src/app/api/requests/vacation/route.ts:86-96 | start < end gives daysRequested >= 2 |
| `VacationRoute.WholeDaysApart` | src/app/api/requests/vacation/route.ts:94-96 | dates exactly k days apart give k + 1 |
| `VacationRoute.DaysRequestedIsLeast` | src/app/api/requests/vacation/route.ts:94-96 | daysRequested is at most any n with end - start <= (n - 1) days |
| `VacationRoute.WeekendsAreCounted` | src/app/api/requests/vacation/route.ts:94-96 | 2024-01-01 to 2024-01-05 is 5 days; a Saturday to the next Sunday is 2: no weekend exclusion |
| `FundRoute.CheckPost` | src/app/api/requests/fund/route.ts:66-88 | errors in source order: 401, 404 before the body, 500 malformed body, 400 any field falsy, 400 fund type not a member (only after the fields pass), 400 amount NaN or <= 0; accepted iff all pass, with the parsed positive amount and the caller's profile id |
| `FundRoute.Post` | src/app/api/requests/fund/route.ts:66-120 | on a failed check answers it and inserts nothing; otherwise appends one PENDING row with the parsed amount, owned by the caller, and answers 201 |
| `GeneralRoute.WithDefault` | src/app/api/requests/general/route.ts:75 | only an omitted priority becomes MEDIUM; null and strings are kept |
| `GeneralRoute.PriorityOf` | src/app/api/requests/general/route.ts:81-83 | a priority field is valid iff it is one of the four member names |
| `GeneralRoute.CheckPost` | src/app/api/requests/general/route.ts:66-83 | errors in source order: 401, 404 before the body, 500 malformed body, 400 missing type/subject/description (before the priority), 400 null or unknown priority; accepted iff all pass, an omitted priority stored as MEDIUM |
| `GeneralRoute.Post` | src/app/api/requests/general/route.ts:66-115 | on a failed check answers it and inserts nothing; otherwise appends one PENDING row with the given or defaulted priority, owned by the caller, and answers 201 |
| `Text.ToLower` | src/components/admin-dashboard.tsx:147-150 | same length; each character lower-cased (ASCII letters) |
| `Text.Includes` | src/components/admin-dashboard.tsx:147-150 | true iff the needle occurs at some index of the haystack |
| `Seqs.Filter` | src/components/admin-dashboard.tsx:157 | keeps exactly the elements satisfying the predicate, never more than the input |
| `Seqs.FilterConcat` | src/components/admin-dashboard.tsx:157 | filtering a concatenation is concatenating the filtered parts |
| `Seqs.FilterIndices` | src/components/admin-dashboard.tsx:157 | the filter reads the input at strictly increasing positions and takes every position whose element satisfies the predicate: it is the order-preserving subsequence |
| `Seqs.CountIsIndexCount` | src/components/admin-dashboard.tsx:292-295 | `filter(p).length` is the number of positions whose element satisfies p |
| `Seqs.FilterKeepsAll` | src/components/admin-dashboard.tsx:145-155 | a predicate true of every element keeps the whole list in order |
| `Seqs.FilterMultiplicity` | src/app/api/requests/vacation/route.ts:37-40 | a kept element occurs as often as in the input; a rejected one never |
| `Seqs.Count` | src/components/employee-dashboard.tsx:222 | a filtered count never exceeds the length |
| `Seqs.CountExclusive2` | src/components/employee-dashboard.tsx:222 | two exclusive predicates count at most the length together |
| `Seqs.CountExclusive3` | src/app/dashboard/incidents/page.tsx:239-305 | three pairwise exclusive predicates count at most the length together |
| `Seqs.CountMonotone` | src/components/admin-dashboard.tsx:292-295 | a stronger predicate never counts more |
| `Seqs.InsertDesc` | src/components/employee-dashboard.tsx:220 | inserting into a newest-first list keeps it sorted and adds exactly that element |
| `Seqs.SortDesc` | src/components/employee-dashboard.tsx:220 | the result is sorted by key descending and is a permutation of the input |
| `Seqs.SortDescStable` | src/components/employee-dashboard.tsx:220 | elements of equal key keep their input order |
| `Seqs.SortDescKeepsTies` | src/components/employee-dashboard.tsx:220 | for every key value, the elements with that key appear in the sorted list in input order |
| `Seqs.Dedup` | src/components/admin-dashboard.tsx:158 | no duplicates, and exactly the input's elements |
| `Seqs.DedupPrefix` | src/components/admin-dashboard.tsx:158 | first-appearance order: de-duplicating a longer list only appends |
| `Fetch.Refreshed` | src/components/employee-dashboard.tsx:94-107 | an ok response replaces the slot, a not-ok one keeps the previous value |
| `AdminDashboard.OkConcat` | src/components/admin-dashboard.tsx:92-99 | an element is in the merge iff some ok response lists it; not-ok responses add nothing |
| `AdminDashboard.MergeResponses` | src/components/admin-dashboard.tsx:92-99 | the push loop computes exactly the concatenation of the ok lists, in response order |
| `AdminDashboard.OkConcatLength` | src/components/admin-dashboard.tsx:92-99 | the merge is as long as the ok lists together |
| `AdminDashboard.FilteredEmployees` | src/components/admin-dashboard.tsx:145-155 | an employee is kept iff the lower-cased term occurs in first name, last name, code or email and the department is unselected or equal |
| `AdminDashboard.UnfilteredEmployees` | src/components/admin-dashboard.tsx:145-155 | with no search term and no department selected, every employee is listed in order |
| `AdminDashboard.PendingRequests` | src/components/admin-dashboard.tsx:157 | exactly the PENDING requests, each as often as in the list, read at increasing positions that include every PENDING one: the order-preserving PENDING subsequence |
| `AdminDashboard.NonEmptyDepartments` | src/components/admin-dashboard.tsx:158 | a department is listed iff it is non-empty and some employee has it |
| `AdminDashboard.Departments` | src/components/admin-dashboard.tsx:158 | every non-empty department exactly once; the first-appearance order is stated by `DepartmentsSnoc` |
| `AdminDashboard.DepartmentOf` | src/components/admin-dashboard.tsx:158 | an employee contributes at most one department: its own, exactly when it is present and non-empty (`filter(Boolean)`) |
| `AdminDashboard.NonEmptyDepartmentsSnoc` | src/components/admin-dashboard.tsx:158 | one more employee only appends its department: `map(...).filter(Boolean)` keeps employee order |
| `AdminDashboard.DepartmentsSnoc` | src/components/admin-dashboard.tsx:158 | one more employee appends its department exactly when it is non-empty and not yet listed: `Array.from(new Set(...))` keeps first-appearance order |
| `AdminDashboard.LocalDay` | src/components/admin-dashboard.tsx:294 | the local calendar day of an instant, each instant read with its own local offset (as `toDateString` does across a daylight-saving change) |
| `AdminDashboard.ApprovedToday` | src/components/admin-dashboard.tsx:292-295 | the number of positions holding an APPROVED request created on today's local day; never more than the APPROVED requests |
| `AdminDashboard.ApprovedTodayIgnoresUpdate` | src/components/admin-dashboard.tsx:292-295 | two lists that differ only in `updatedAt` show the same number |
| `AdminDashboard.ApprovedTodayReadsCreation` | src/components/admin-dashboard.tsx:292-295 | adding a request created on an earlier day but approved today leaves the number unchanged |
| `AdminDashboard.ApprovedTodayCountsCreation` | src/components/admin-dashboard.tsx:292-295 | adding an APPROVED request created today adds one |
| `AdminDashboard.ReviewCall` | src/components/admin-dashboard.tsx:109-143 | approve sends status APPROVED, reject sends REJECTED, to the given kind and id |
| `AdminDashboard.TabReviewCall` | src/components/admin-dashboard.tsx:467-474 | the Requests tab always targets the vacation route, with the request's id |
| `AdminDashboard.Dashboard.constructor` | src/components/admin-dashboard.tsx:62-63 | both lists start empty |
| `AdminDashboard.Dashboard.FetchData` | src/components/admin-dashboard.tsx:73-107 | employees replaced only on ok; requests always replaced by the merge of the ok lists, sorted newest first, a permutation of the merge |
| `AdminDashboard.Dashboard.HandleReview` | src/components/admin-dashboard.tsx:109-143 | sends the review call; refetches only on an ok answer, otherwise changes nothing |
| `EmployeeDashboard.TagVacation` | src/components/employee-dashboard.tsx:217 | each vacation row tagged, order and length kept |
| `EmployeeDashboard.TagFund` | src/components/employee-dashboard.tsx:218 | each fund row tagged, order and length kept |
| `EmployeeDashboard.TagGeneral` | src/components/employee-dashboard.tsx:219 | each general row tagged, order and length kept |
| `EmployeeDashboard.AllRequests` | src/components/employee-dashboard.tsx:216-220 | length is the sum of the three; a permutation of the tagged concatenation; sorted newest first; every row of each list is present; entries with equal createdAt keep the concatenation order (vacation, fund, general, each in list order) |
| `EmployeeDashboard.CardsBoundedByTotal` | src/components/employee-dashboard.tsx:222 | pending count + approved count <= total |
| `EmployeeDashboard.Recent` | src/components/employee-dashboard.tsx:343 | the first min(5, total) entries |
| `EmployeeDashboard.StatusColor` | src/components/employee-dashboard.tsx:203-214 | APPROVED green, REJECTED red, PENDING yellow, gray exactly for the other statuses |
| `EmployeeDashboard.Dashboard.constructor` | src/components/employee-dashboard.tsx:56-78 | lists empty, forms at their initial values |
| `EmployeeDashboard.Dashboard.FetchRequests` | src/components/employee-dashboard.tsx:84-113 | each list replaced only by its own ok response; forms untouched |
| `EmployeeDashboard.Dashboard.SubmitVacation` | src/components/employee-dashboard.tsx:115-138 | on ok: vacation form reset to empty strings and lists refetched; otherwise nothing changes |
| `EmployeeDashboard.Dashboard.SubmitFund` | src/components/employee-dashboard.tsx:140-163 | on ok: fund form reset (fund type TRAVEL) and lists refetched; otherwise nothing changes |
| `EmployeeDashboard.Dashboard.SubmitGeneral` | src/components/employee-dashboard.tsx:165-188 | on ok: general form reset (priority MEDIUM) and lists refetched; otherwise nothing changes |
| `IncidentsPage.FilteredIncidents` | src/app/dashboard/incidents/page.tsx:178-188 | kept iff the term occurs case-insensitively in title, description or category and each filter is unset or equal |
| `IncidentsPage.UnfilteredIncidents` | src/app/dashboard/incidents/page.tsx:178-188 | with no search term and no filter set, every incident is listed in order |
| `IncidentsPage.StatCardsBoundedByTotal` | src/app/dashboard/incidents/page.tsx:239-305 | Pending + In Progress + Resolved <= Total Incidents |
| `IncidentsPage.ReporterName` | src/app/dashboard/incidents/page.tsx:113 | the session name when non-empty, else 'Unknown' |
| `IncidentsPage.NewIncident` | src/app/dashboard/incidents/page.tsx:109-116 | the form's fields, status PENDING, no assignee, reporter from the session, id and timestamps from the clock |
| `IncidentsPage.PriorityColor` | src/app/dashboard/incidents/page.tsx:163-176 | URGENT red, HIGH orange, MEDIUM yellow, LOW green, each colour for exactly one priority |
| `IncidentsPage.IncidentStatusColor` | src/app/dashboard/incidents/page.tsx:148-161 | COMPLETED green, IN_PROGRESS blue, PENDING yellow, REJECTED red, APPROVED gray |
| `IncidentsPage.DeleteImpliesEdit` | src/app/dashboard/incidents/page.tsx:403-415 | delete (ADMIN only) implies view/edit (ADMIN, HR, MANAGER); HR and MANAGER get view/edit without delete; EMPLOYEE gets neither |
| `IncidentsPage.Page.constructor` | src/app/dashboard/incidents/page.tsx:37-50 | no incidents, the form at its initial values, closed |
| `IncidentsPage.Page.CreateIncident` | src/app/dashboard/incidents/page.tsx:105-125 | prepends exactly one new incident and keeps the old ones in order; form reset to empty title and description, MEDIUM, 'General'; form closed |

## Left out

- Persistence: Prisma is an in-memory `seq` per table. A failing database is not modelled, so the only 500 comes from a malformed body.
- The read-side join that adds the owner's name and email to every returned row is not modelled. Rows carry the owner's employee id.
- The status-change (PUT) handler of `/api/requests/{kind}/{id}` is not part of this model. Only the call the dashboard sends is modelled. `requireRole` is imported by the vacation route but never called there.
- Date parsing: the model takes parsed millisecond timestamps. An unparseable date string gives NaN in the source, and NaN passes both date comparisons. That case is not modelled.
- `parseFloat` is a parameter; JavaScript's prefix parsing and float rounding are not reproduced. A JSON number (rather than a string) in `amount` is not modelled.
- FundRoute.CheckPost: the FundType members live in the database schema, which is not part of this model. Only TRAVEL is visible in the source, so the member set is a parameter.
- Text.ToLower: lower-cases ASCII letters only, because Unicode case mapping is not modelled.
- `Promise.all` fan-out is modelled as three reads in order. A rejected fetch (network error) and its `catch` are not modelled. Loading flags, `alert` and console output are left out too.
- `fetchIncidents` (src/app/dashboard/incidents/page.tsx:56-103) is not modelled: it loads three hard-coded mock incidents after a simulated delay, and `IncidentsPage.Page` starts with no incidents instead.
- The incident id that `CreateIncident` makes with `Date.now().toString()` is the clock value `now`. The two `new Date()` calls are collapsed into that one `now`.
- RequestStore.ListKeepsInsertionOrderOnTies: stated for privileged callers only. The per-owner listing has the same stable sort but no separate lemma.
- AdminDashboard.TabReviewCall: the admin's merged list does not record which route a request came from. So the model cannot tell a fund or general request apart when it is reviewed through the vacation route.
- Rendering, styling, icons (`getStatusIcon`), `toLocaleString` formatting, tabs and navigation.
- The salary, savings and attendance pages (mock random data and floating point), sign-in, navigation and the seed script. The dashboard page's role switch is the same set as `ApiUtils.IsPrivileged`.
