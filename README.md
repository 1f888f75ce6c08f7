# p5crm dashboard core, modelled in Dafny

This project models the logic inside the p5crm back-office dashboard, a React
application. Its screens are mostly markup. The parts modelled here are these:

- **The work-queue list engine.** The Frontend, Backend, Project Lead, Figma
  Repository and Accounts screens each carry a copy of it. Each screen filters
  a fixed list of 48 rows by a case-insensitive substring search over a
  per-screen list of fields. It shows the result ten rows a page, and clamps
  page navigation into range. The engine is modelled once (`ListView`): pure
  functions for filtering and slicing, plus a `ListScreen` class for the
  `query` and `page` state cells. Each screen instantiates it with its own
  rows and searched fields.
- **The CSV export text** that `downloadCSV` builds (`Csv`). A header row,
  then one line per record. Each header is normalised to a lookup key. The key
  selects one of ten composite templates, or reads one field through an alias
  table. Direct values are formatted by type. The projects and jobs exports
  use fixed header lists. `Cell` and `Serialize` build the text with the
  rupee sign of the 'projectdetails' template corrected. `CellAsWritten` and
  `SerializeAsWritten` build it exactly as the code writes it. The two differ
  only in the cells of that template (see "## Findings").
- **The record screens** Clients, Projects and Staff. They share one class
  (`Records.RecordList`) holding:
  - the list of records;
  - the search term;
  - whether the modal is open;
  - the record being edited.

  Its handlers are these:
  - add appends under `max(ids, 0) + 1`;
  - edit replaces by id, keeping the id;
  - delete filters by id after confirmation;
  - submit routes to edit or add, then closes the modal.

  Each screen adds its own search predicate, status badge and seed records.
  Clients also has its form defaults and validation.
- **The role tables.** These are the sidebar menu filtered by the stored role
  and `isActive`, the route guard's decision, and the login handler. The login
  handler validates its fields, orders its storage writes, and sends each role
  to its landing page.

Strings are sequences of characters. `toLowerCase` is modelled on the ASCII
letters. `trim` and `\s` use the ECMAScript white-space set. Integers are
unbounded.

The CSV output ends without a line terminator, because the code joins the
lines with `'\n'` (downloadUtils.ts:85). The only case where the text does end
in `'\n'` is when the last line is itself empty.

## Model

| member | source | states |
|---|---|---|
| ListView.FilteredBlank | src/components/Frontend.tsx:60-61 | A query that is white space only lists every row unchanged |
| ListView.FilteredExactly | src/components/Frontend.tsx:62-75 | For a non-blank query, a row is kept iff some searched value, lower-cased, includes the lower-cased query; a kept row is kept as often as it occurs |
| ListView.FilteredInOrder | src/components/Frontend.tsx:60-77 | The filtered rows are an order-preserving subsequence of the rows and never more of them |
| ListView.QueryNotTrimmedForMatching | src/components/Frontend.tsx:61-62 | Blankness is judged on the trimmed query, matching on the query as typed: "A" finds "a" but "A " does not |
| ListView.MatchesIffOccurs | src/components/Frontend.tsx:75 | A row matches iff the lower-cased query occurs at some index of some lower-cased searched value |
| ListView.PageCount | src/components/Frontend.tsx:79 | The page count is at least 1 and is the fewest pages of ten that hold the rows |
| ListView.PageWindow | src/components/Frontend.tsx:80 | Page p holds at most ten rows: exactly the rows from index (p-1)*10 on, up to ten, in order |
| ListView.PagesArePrefix | src/components/Frontend.tsx:80 | The first k pages laid end to end are the first 10k rows |
| ListView.PagesPartition | src/components/Frontend.tsx:79-80 | Pages 1 to pageCount laid end to end give back every filtered row exactly once, in order |
| ListView.PageSizes | src/components/Frontend.tsx:79-80 | Every page before the last is full, the last holds between 1 and 10 rows, and later pages are empty |
| ListView.FortyEightRows | src/components/Frontend.tsx:25-80 | 48 rows make five pages: four of ten and a last one of eight |
| ListView.Clamp | src/components/Frontend.tsx:81 | `go`'s target always lies in [1, pageCount] |
| ListView.ClampNearest | src/components/Frontend.tsx:81 | The clamped page is the target itself when in range, else the bound it overshot, and no page in range is nearer the target |
| ListView.PageButtons | src/components/Frontend.tsx:234-235 | There are min(5, pageCount) numbered buttons, numbered 1, 2, ... |
| ListView.ButtonsLandOnTheirPage | src/components/Frontend.tsx:234-239 | Pressing numbered button i lands exactly on page i |
| ListView.ArrowsDisabledExactlyWhenNoOp | src/components/Frontend.tsx:226-256 | Previous is disabled exactly on page 1 and Next exactly on the last page, which is exactly when pressing them would not move |
| ListView.SampleIdsDistinct | src/components/Frontend.tsx:36 | Seeded ids are five digits, and distinct rows get distinct ids |
| ListView.ListScreen.constructor | src/components/Frontend.tsx:57-58 | The screen opens with an empty query on page 1, a page that exists |
| ListView.ListScreen.PageRows | src/components/Frontend.tsx:80 | The rows shown are the filtered rows from index (page-1)*10 on, ten of them or all that remain when fewer, in order, and none only when nothing matches |
| ListView.ListScreen.OnQueryChange | src/components/Frontend.tsx:110-113 | Editing the query sets it and resets the page to 1 |
| ListView.ListScreen.Go | src/components/Frontend.tsx:81 | `go(p)` moves to p clamped into [1, pageCount], keeps the query, and keeps the page valid |
| Frontend.SampleRows | src/components/Frontend.tsx:25-54 | The seed holds 48 rows |
| Frontend.PushFlagNotSearched | src/components/Frontend.tsx:63-75 | `pushToP5Repository` is not searched: flipping it changes no match |
| Frontend.SampleRowsRotate | src/components/Frontend.tsx:42-44 | Seeded statuses repeat every six rows; the push flag is set on even rows |
| Frontend.Mount | src/components/Frontend.tsx:25-81 | The opened screen lists all 48 rows on page 1 of 5, showing ten |
| Backend.SampleRows | src/components/Backend.tsx:27-46 | The seed holds 48 rows |
| Backend.SampleStatusAlternates | src/components/Backend.tsx:34 | Seeded status is "In Process" on even rows and "Completed" on odd rows |
| Backend.Mount | src/components/Backend.tsx:27-72 | The opened screen lists all 48 rows on page 1 of 5, showing ten |
| ProjectLead.SampleRows | src/components/ProjectLead.tsx:25-36 | The seed holds 48 rows |
| ProjectLead.SampleStatus | src/components/ProjectLead.tsx:31 | Seeded status is "Completed" on multiples of three, else "API Pending" on even rows and "Pending" on odd rows |
| ProjectLead.SampleIds | src/components/ProjectLead.tsx:26 | Seeded ids are i+1 in five digits, one per row |
| ProjectLead.Mount | src/components/ProjectLead.tsx:25-62 | The opened screen lists all 48 rows on page 1 of 5, showing ten |
| FigmaRepository.SampleRows | src/components/FigmaRepository.tsx:14-22 | The seed holds 48 rows |
| FigmaRepository.BlankQueryListsAll | src/components/FigmaRepository.tsx:28-42 | A blank query lists all 48 rows, on five pages |
| FigmaRepository.Mount | src/components/FigmaRepository.tsx:14-44 | The opened screen lists all 48 rows on page 1 of 5, showing ten |
| Accounts.SampleRows | src/components/Accounts.tsx:31-47 | The seed holds 48 rows |
| Accounts.InvoiceFoundByDigits | src/components/Accounts.tsx:64 | A numeric invoice number is found by typing its decimal digits |
| Accounts.SampleAlternation | src/components/Accounts.tsx:33-39 | Seeded client names alternate "Raju Babu" (even) and "Mahes" (odd); the bill is "One Time" exactly on multiples of three |
| Accounts.Mount | src/components/Accounts.tsx:31-79 | The opened screen lists all 48 rows on page 1 of 5, showing ten |
| Text.TrimEmptyIffBlank | src/components/Frontend.tsx:61 | `trim()` yields "" exactly when the text is all white space |
| Text.TrimIdempotent | src/components/Clients.tsx:46 | Trimming twice is trimming once |
| Text.PaddedIdRoundTrip | src/components/Frontend.tsx:36 | A zero-padded id reads back as the number it was made from |
| Seqs.FilterMembership | src/components/Projects.tsx:57-60 | `filter` keeps an element iff it is in the input and passes |
| Seqs.FilterIsSubsequence | src/components/Projects.tsx:57-60 | `filter` keeps the input order |
| Seqs.FilterAppend | src/components/Sidebar.tsx:81-83 | Filtering a concatenation filters each part and concatenates the results |
| Seqs.FilterBlock | src/components/Sidebar.tsx:81-83 | When exactly the elements of one contiguous run pass, `filter` returns that run |
| Seqs.SplitJoin | src/utils/downloadUtils.ts:83-85 | Splitting a join at the separator gives back the parts when no part holds the separator |
| Csv.TemplateForKey | src/utils/downloadUtils.ts:13-43 | A lookup key selects a composite template exactly when it is that template's case label |
| Csv.Cells | src/utils/downloadUtils.ts:8-83 | A record has one cell per header, in header order |
| Csv.DataLines | src/utils/downloadUtils.ts:7-84 | There is one data line per record, in record order |
| Csv.SerializeLines | src/utils/downloadUtils.ts:5-85 | Without line breaks in headers or cells, the text splits at '\n' into the header row and one line per record, in order |
| Csv.SerializeAppend | src/utils/downloadUtils.ts:5-85 | One more record adds "\n" and its line at the end; the text has no terminator of its own |
| Csv.SerializeNoRecords | src/utils/downloadUtils.ts:5-6 | With no records the text is the header row alone |
| Csv.CellsAsWritten | src/utils/downloadUtils.ts:8-83 | As the code writes them, a record has one cell per header, in header order |
| Csv.CellCorrection | src/utils/downloadUtils.ts:8-83 | A cell as written equals the corrected cell under every header that does not resolve to 'projectdetails'; under one that does, the written cell opens with the misencoded prefix and the corrected one with ₹ |
| Csv.SerializeCorrection | src/utils/downloadUtils.ts:5-85 | When no header resolves to 'projectdetails', the text as written and the corrected text are the same |
| Csv.ExportsAsWritten | src/utils/downloadUtils.ts:102-139 | The projects and jobs exports have no 'projectdetails' column, so their text is the same as written and corrected |
| Csv.HeaderRowVerbatim | src/utils/downloadUtils.ts:6 | The header row splits back into the caller's headers, not normalised |
| Csv.DataLineCells | src/utils/downloadUtils.ts:83 | Without commas in the cells, a data line splits back into exactly one cell per header |
| Csv.CommaInValueAddsCell | src/utils/downloadUtils.ts:77 | Quoting does not escape: a value with a comma splits into one cell more than there are headers |
| Csv.FormatDirectMeaning | src/utils/downloadUtils.ts:70-78 | Booleans give Yes/No, numbers give digits that read back as the number, undefined/null give "", and text is the value between quotes |
| Csv.KeySentToAccounting | src/utils/downloadUtils.ts:9 | The key of "Sent to Accounting" is "senttoaccounting" |
| Csv.ColumnSentToAccounting | src/utils/downloadUtils.ts:46-67 | "Sent to Accounting" reads the field `sentToAccounting` through the alias table |
| Csv.ColumnDate | src/utils/downloadUtils.ts:66-67 | "Date" has no alias, so its key "date" is itself the field name |
| Csv.ClientInfoCell | src/utils/downloadUtils.ts:14-16 | 'clientinfo' is the client name followed by the client id in parentheses |
| Csv.BillingCell | src/utils/downloadUtils.ts:23-25 | 'billing' ends in Sent when `sentToAccounting` is truthy and in Pending otherwise; the rest of the cell does not depend on it |
| Csv.TimelineCell | src/utils/downloadUtils.ts:35-37 | 'timeline' gains " \| OVERDUE" exactly when `overdue` is truthy |
| Csv.JobStatusCell | src/utils/downloadUtils.ts:41-43 | 'jobstatus' is the status, followed by " \| Hold/Reassign" exactly when `holdReassign` is truthy |
| Csv.JobsStatusColumn | src/utils/downloadUtils.ts:26-28 | For every job, the jobs header 'Status' yields the GST template over the job's GST fields ("GST: undefined \| Confirmed: undefined" when it has neither), whatever the job's own status is |
| Csv.JobsProjectColumn | src/utils/downloadUtils.ts:29-31 | The jobs header 'Project' yields the project name followed by its id in parentheses |
| Csv.SentToAccountingExample | src/utils/downloadUtils.ts:70-71 | One project sent to accounting under that one header exports as "Sent to Accounting\nYes" |
| Csv.ProjectsHeadersResolve | src/utils/downloadUtils.ts:103-115 | The 11 projects headers each read the field of the same name directly, in a fixed order |
| Csv.JobsHeadersResolve | src/utils/downloadUtils.ts:121-136 | The 14 jobs headers: 'Project' and 'Status' are composite, every other header reads its own field |
| Csv.DownloadNames | src/utils/downloadUtils.ts:94-138 | The exports are saved as projects_export.csv and jobs_export.csv |
| Csv.Utf8Bytes3 | src/utils/downloadUtils.ts:21 | A code point from U+0800 to U+FFFF encodes as a lead byte and two continuation bytes |
| Csv.ProjectDetailsAsWritten | src/utils/downloadUtils.ts:21 | As written, the details cell opens with the rupee sign's UTF-8 bytes read as Windows-1252, not with the rupee sign |
| Csv.ProjectDetailsCorrected | src/utils/downloadUtils.ts:21 | Corrected, the details cell opens with the rupee sign and then the amount |
| Csv.CorrectionOnlyTouchesProjectDetails | src/utils/downloadUtils.ts:14-43 | The correction changes no other template |
| Records.MaxId | src/components/Clients.tsx:83 | `Math.max(0, ...ids)` is at least 0, at least every id, and is 0 or one of the ids |
| Records.NextId | src/components/Projects.tsx:62-68 | A new id is at least 1, above every existing id, and is 1 or one more than an existing id |
| Records.AppendFreshKeepsUnique | src/components/Projects.tsx:62-68 | Appending under the next id keeps ids unique |
| Records.ReplaceKeepsIds | src/components/Projects.tsx:70-77 | Edit keeps the length and every id, replaces only the records with the edited id, and keeps ids unique |
| Records.RemoveExactly | src/components/Projects.tsx:79-83 | Delete keeps exactly the records under other ids, in order |
| Records.RemoveCount | src/components/Projects.tsx:79-83 | Delete drops one record per occurrence of the id, so with unique ids exactly one when present and none otherwise |
| Records.RemoveKeepsUnique | src/components/Projects.tsx:79-83 | Delete keeps ids unique |
| Records.RecordList.constructor | src/components/Projects.tsx:22-55 | A screen opens on its seed with an empty search and the modal closed |
| Records.RecordList.OnSearchChange | src/components/Projects.tsx:139 | Typing sets the search term and changes nothing else |
| Records.RecordList.OpenAddModal | src/components/Clients.tsx:60-63 | Clients' Add clears the edited record and opens the modal |
| Records.RecordList.OpenModal | src/components/Projects.tsx:121 | Projects' and Staff's Add button only opens the modal |
| Records.RecordList.OpenEditModal | src/components/Projects.tsx:85-88 | Edit sets the edited record and opens the modal |
| Records.RecordList.CloseModal | src/components/Projects.tsx:90-93 | Closing clears the edited record and closes the modal |
| Records.RecordList.Add | src/components/Projects.tsx:62-68 | Add appends the data under the next id, above every existing id; nothing else changes |
| Records.RecordList.Edit | src/components/Projects.tsx:70-77 | With a record being edited, the records under its id are replaced under that id and editing ends; with none, nothing changes |
| Records.RecordList.Delete | src/components/Projects.tsx:79-83 | Only when confirmed, the records with the id are removed, the rest keep their order; ids stay unique |
| Records.RecordList.Submit | src/components/Projects.tsx:225-231 | Submit edits when a record is being edited and adds otherwise, then the modal closes with nothing being edited |
| Clients.FilteredClientsBlank | src/components/Clients.tsx:45-47 | A term of white space only lists every client |
| Clients.FilteredClientsExactly | src/components/Clients.tsx:45-55 | A client is listed iff name, client id, phone or email includes the trimmed, lower-cased term; order is kept |
| Clients.FilteredClientsIgnoresOuterSpace | src/components/Clients.tsx:46 | Leading and trailing white space in the term makes no difference |
| Clients.BillingNotSearched | src/components/Clients.tsx:48-54 | GST and billing fields never change whether a client is listed |
| Clients.BillingStatusClass | src/components/Clients.tsx:57-58 | The billing class is green iff the status is Active, gray otherwise |
| Clients.InitialFormMeaning | src/components/Clients.tsx:261-273 | A new form defaults to "10 %", "Monthly" and "Active" and is not yet valid; a form opened on a client submits it unchanged |
| Clients.FilledNewFormIsValid | src/components/Clients.tsx:275-282 | Filling the four text fields of a new form makes it valid |
| Clients.Mount | src/components/Clients.tsx:16-43 | The screen opens on the two seed clients, all listed, modal closed |
| Clients.Save | src/components/Clients.tsx:450-462 | An invalid form changes nothing; a valid one edits or adds as Submit does and closes the modal |
| Projects.FilteredProjectsExactly | src/components/Projects.tsx:57-60 | A project is listed iff client name or client id, lower-cased, includes the lower-cased term; order is kept |
| Projects.EmptyTermListsAll | src/components/Projects.tsx:57-60 | The empty term lists every project |
| Projects.SpaceTermNotTrimmed | src/components/Projects.tsx:57-60 | The term is not trimmed: " " hides a project whose name and id have no space |
| Projects.StatusBadgeColours | src/components/Projects.tsx:95-103 | Completed, Pending, Filed and In Progress get their colours; any other status is gray |
| Projects.ExportLine | src/utils/downloadUtils.ts:102-117 | A project's export line is its quoted text fields, its value as digits, and Yes/No for sent to accounting, in header order |
| Projects.ExportListsFiltered | src/components/Projects.tsx:114 | The export is projects_export.csv; its lines are exactly the header row and then the line of each listed project, in list order, not of every project |
| Projects.Mount | src/components/Projects.tsx:22-55 | The screen opens on the two seed projects with the modal closed |
| Staff.FilteredStaffExactly | src/components/Staff.tsx:62-66 | A member is listed iff name, email or employee id, lower-cased, includes the lower-cased term; order is kept |
| Staff.EmptyTermListsAll | src/components/Staff.tsx:62-66 | The empty term lists every member |
| Staff.RoleAndStatusNotSearched | src/components/Staff.tsx:62-66 | Role and status never change whether a member matches |
| Staff.KindByPrefix | src/components/Staff.tsx:166 | The label is Employee iff the id starts with the capitals E, M, P, and Intern otherwise |
| Staff.SeedKinds | src/components/Staff.tsx:15-56 | Of the seed staff only INT001 is an intern |
| Staff.StatusBadgeColours | src/components/Staff.tsx:101-108 | Active, Inactive and On Leave get their colours; any other status is gray |
| Staff.Mount | src/components/Staff.tsx:15-60 | The screen opens on the five seed members with the modal closed |
| Sidebar.FilteredItemsExactly | src/components/Sidebar.tsx:81-83 | An item is shown iff its roles include the stored role (a missing role counts as ""); the table order is kept |
| Sidebar.MenuByItems | src/components/Sidebar.tsx:32-83 | The menu for a role is the table's items that list the role, item by item |
| Sidebar.NoRoleNoMenu | src/components/Sidebar.tsx:29-83 | No item lists "", so without a role the menu is empty |
| Sidebar.AdminMenu | src/components/Sidebar.tsx:32-83 | An admin sees Dashboard, Clients, Projects and Staff, in that order |
| Sidebar.ProjectLeadMenu | src/components/Sidebar.tsx:41-46 | The role "project lead" sees only Project Lead |
| Sidebar.ProjectsNeedsUnderscore | src/components/Sidebar.tsx:35-40 | Projects is listed for "project_lead" and so is missing from the "project lead" menu |
| Sidebar.DesignerMenu | src/components/Sidebar.tsx:47-58 | A designer sees Working and Figma Repository, in that order |
| Sidebar.MenuIdsDistinct | src/components/Sidebar.tsx:32-78 | No two menu items share an id |
| Sidebar.ActiveExactly | src/components/Sidebar.tsx:112 | An item is active iff the path is "/" followed by its id, and at most one item is active |
| ProtectedRoute.DecideCases | src/auth/ProtectedRoute.tsx:10-14 | Nothing while loading; /login without a role; /unauthorized for a role not allowed; the page exactly for an allowed role |
| ProtectedRoute.EmptyAllowedNeverRenders | src/auth/ProtectedRoute.tsx:13-14 | A route allowing no role never renders its page |
| ProtectedRoute.WiderAllowedKeepsAccess | src/auth/ProtectedRoute.tsx:13-14 | Allowing more roles never takes a rendered page away |
| Login.Browser.ShowAlert | src/components/Login.tsx:50 | An alert is recorded and nothing else changes |
| Login.Browser.LoginUser | src/components/Login.tsx:54 | The request is recorded and settles with the given answer |
| Login.Browser.SetStorageItem | src/components/Login.tsx:58-60 | A storage write sets that key only and is recorded |
| Login.Browser.Assign | src/components/Login.tsx:67 | Navigation sets the location and is recorded |
| Login.HandleSubmit | src/components/Login.tsx:46-94 | The handler's events, storage and location are those of one submission as `SubmitEvents` and `StorageAfter` define them |
| Login.IncompleteFormOnlyAlerts | src/components/Login.tsx:49-52 | An empty email, password or role only shows the fill-all-fields alert: no request, and storage is left as it was |
| Login.WritesFollowResolvedRequest | src/components/Login.tsx:54-86 | Storage is written iff the form is filled and the request resolved, always after the request: token, then role, then the flag, with navigation last |
| Login.FailedLoginNoWriteNoRedirect | src/components/Login.tsx:87-93 | A failed login shows the error's message or a generic one, and neither writes nor navigates |
| Login.StoredAfterSuccess | src/components/Login.tsx:58-60 | After success the role is stored verbatim, the flag is "true", and other keys are untouched |
| Login.LandingPaths | src/components/Login.tsx:65-86 | Each selectable role has its landing path; every other role, "project_lead" included, lands on "/" |
| Login.LandingIsInMenu | src/components/Login.tsx:65-86 | Every selectable role lands on a page whose item its own sidebar menu shows, highlighted |
| Login.MenuAfterLogin | src/components/Login.tsx:58-86 | After a successful login, the sidebar reading the stored role shows the landing page's item |

## Left out

- Lowercasing covers the ASCII letters only; JavaScript's `toLowerCase` also maps other Unicode letters.
- Numbers are unbounded integers. Fractional values, `NaN`, the loss of precision above 2^53, and the exponent form `toString` uses for magnitudes of 1e21 and above ("1e+21") are not modelled; `Text.IntToString` writes every digit.
- `toLocaleString` in the 'projectdetails' template is a parameter `locale` of the CSV functions, since its output depends on the host locale.
- The random `awsDetails` of the Frontend and Backend seed rows (`Math.random`) are a parameter of `SampleRows`.
- The browser download (Blob, object URL, link click), `alert`, `window.confirm`, `console.log` and `localStorage.clear` on logout are not modelled. Confirmation is a boolean input of `Delete`. Login records alerts, storage writes and navigation as events.
- The login request is not modelled; its outcome is an input of `HandleSubmit`.
- Object keys inherited from JavaScript's prototype (a header whose key is "constructor", a status "toString") are not modelled; the alias and colour tables are plain maps.
- The Project and Staff modals' form state is not modelled. Their submit calls `onSubmit` then `onClose`, which `RecordList.Submit` captures.
- The Job modal's overdue computation depends on the clock and is not modelled.
- The API client, authentication context, router wiring (`App.tsx`) and dashboard are not modelled.
- Clients' pagination markup has no handlers. Its unused `startDate` and `endDate` are not modelled.
- `useMemo` caching changes no result and is not modelled.
- Billing type and billing status are plain strings, where the source's types narrow them to a few literals.
- Csv.Cell: uses the corrected rupee sign in the 'projectdetails' template, so under a header that resolves to it the cell differs from the code's; Csv.CellAsWritten is the cell as written and Csv.CellCorrection states the difference.
- Csv.Serialize: built from the corrected Csv.Cell, so the lemmas about the text (lines, appending, the fixed exports) are stated for the corrected text; Csv.SerializeAsWritten is the text as written, and Csv.SerializeCorrection and Csv.ExportsAsWritten say when the two agree.
- Csv.ProjectsHeadersResolve and Csv.JobsHeadersResolve state the resolution of the fixed header lists only, not of arbitrary headers.

## Findings

| source | as written | input that shows it | evidently intended | confidence | as-written member | corrected member |
|---|---|---|---|---|---|---|
| src/utils/downloadUtils.ts:21 | The 'projectdetails' template starts with the three characters U+00E2 U+201A U+00B9, the rupee sign's UTF-8 bytes E2 82 B9 read as Windows-1252 | Any record exported under a header whose key is 'projectdetails', e.g. "Project Details" | The rupee sign U+20B9 before the amount, as the Accounts screen writes amounts | not executed | Csv.ProjectDetailsAsWritten | Csv.ProjectDetailsCorrected |
