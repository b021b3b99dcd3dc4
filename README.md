# Admin console list logic, in Dafny

This project models the list logic of an administrative console for a job
platform. The console is a React front end over in-memory data. It has five
screens with logic worth stating:

- **Reports** narrows a table of reports with a search box and a status
  selector. It sorts the table by a clicked column, ascending or descending
  (`reports.dfy`, module `Reports`).
- **Users** shows three tabs: pending, approved and rejected users. Each tab
  is narrowed by a search box and a role selector, and its label shows how
  many users it lists (`users.dfy`, module `Users`).
- **Complaints** shows three tabs: pending, verified and rejected complaints.
  Each tab is narrowed by a search box and a relative-date selector
  (`complaints.dfy`, module `Complaints`).
- **Job Vacancies** is a table of vacancies with a create/edit dialog, a
  delete button and an active/closed toggle (`job_vacancies.dfy`, module
  `JobVacancies`).
- **Job Requests** is a table of applications. Each row shows a preview of
  the applicant's skills, and a pending row has accept and reject buttons
  (`job_requests.dfy`, module `JobRequests`).

Two shared modules model the JavaScript built-ins the screens rely on:

- `Strings` covers ASCII `toLowerCase`, `includes` and `<` on strings.
- `Lists` covers `Array.prototype.filter`, `find` and the subsequence
  relation.

The pure parts of each screen are functions, and the properties proved about
them are lemmas:

- Filter predicates.
- The comparator and the sort.
- The list a handler computes with `map`, `filter` or object spread.

The component state that a handler replaces becomes a class:

- `Reports.ReportsView` holds the query state.
- `JobVacancies.VacancyManager` holds the vacancies and the dialog state.
- `JobRequests.RequestBoard` holds the requests and the profile dialog.

Each method of these classes states its new state in terms of those
functions.

JavaScript's `sort` is stable. `Reports.Sort` models it as a stable insertion
sort. `Reports.StableSortIsUnique` proves that any list that is sorted and
keeps equal-key reports in input order is that same list, so the choice of
algorithm does not matter.

## Model

| member | source | states |
|---|---|---|
| Strings.LowerChar | src/pages/admin/Reports.tsx:89 | An ASCII capital moves to its lower-case letter (code + 32). Every other character is kept. The result is never a capital. |
| Strings.Lower | src/pages/admin/Reports.tsx:89 | `toLowerCase` keeps the length and lower-cases each character in place. |
| Strings.LowerIdempotent | src/pages/admin/Users.tsx:96 | Lower-casing an already lower-cased text changes nothing. |
| Strings.Contains | src/pages/admin/Reports.tsx:89 | `includes` holds exactly when the searched text occurs at some position. |
| Strings.ContainsEmpty | src/pages/admin/Reports.tsx:89 | Every text includes the empty text. |
| Strings.ContainsLower | src/pages/admin/Users.tsx:96-99 | A query that occurs in a text still occurs after both are lower-cased, so a case-insensitive search finds every exact occurrence. |
| Strings.LessIrreflexive | src/pages/admin/Reports.tsx:106 | No text is `<` itself. |
| Strings.LessTransitive | src/pages/admin/Reports.tsx:106-109 | `<` on texts is transitive. |
| Strings.LessTrichotomy | src/pages/admin/Reports.tsx:106-112 | For two texts, exactly one of three holds: `a < b`, `a == b` or `b < a`. This is why the comparator's final `return 0` is reached only for equal keys. |
| Strings.LessAsymmetric | src/pages/admin/Reports.tsx:106-109 | `a < b` and `b < a` never both hold. |
| Lists.Filter | src/pages/admin/Users.tsx:109-111 | `filter` returns an order-preserving subsequence of its input. Every element of it satisfies the predicate, and it is never longer than the input. |
| Lists.FilterCount | src/pages/admin/Reports.tsx:86-100 | An element that satisfies the predicate occurs in the result exactly as often as in the input. Any other element does not occur at all. |
| Lists.FilterMembership | src/pages/admin/Users.tsx:109 | An element is in the result exactly when it is in the input and satisfies the predicate. |
| Lists.FilterKeepsAll | src/pages/admin/Users.tsx:109-111 | A predicate true of every element keeps the whole list. |
| Lists.Find | src/pages/admin/manager/JobRequests.tsx:99 | `find` gives nothing exactly when no element satisfies the predicate. Otherwise it gives the first element that does. |
| Reports.SearchIgnoresCase | src/pages/admin/Reports.tsx:88-90 | Two queries that differ only in letter case keep the same reports. |
| Reports.FieldValueFound | src/pages/admin/Reports.tsx:88-90 | A query that occurs in any field of a report, typed in any case, keeps the report. |
| Reports.CompareMeaning | src/pages/admin/Reports.tsx:101-113 | The comparator returns 0 exactly for equal keys. It is positive exactly when `a`'s key may not come before `b`'s in the chosen direction. Swapping its arguments negates it. |
| Reports.OrderedTransitive | src/pages/admin/Reports.tsx:106-111 | The order the comparator induces, in either direction, is transitive. |
| Reports.OrderedAntisymmetric | src/pages/admin/Reports.tsx:106-111 | Two keys each of which may come before the other are equal. |
| Reports.OrderedTotal | src/pages/admin/Reports.tsx:106-111 | Any two keys can be placed in one order or the other. |
| Reports.Insert | src/pages/admin/Reports.tsx:101-113 | One insertion step adds exactly the inserted report to the list's contents. |
| Reports.InsertSorted | src/pages/admin/Reports.tsx:101-113 | Inserting into a sorted list keeps it sorted. |
| Reports.Sort | src/pages/admin/Reports.tsx:101-113 | The sorted list is a permutation of its input. It is non-decreasing by the field when ascending and non-increasing when descending. |
| Reports.FilterReports | src/pages/admin/Reports.tsx:84-113 | `filterReports` returns the input reports that pass both the search and the status filter. Each keeps its input multiplicity, no other report appears, and the result is no longer than the input. The result is sorted by the chosen field and direction. |
| Reports.SortStable | src/pages/admin/Reports.tsx:106-112 | Reports with equal keys keep their input order after the sort. |
| Reports.FilterReportsStable | src/pages/admin/Reports.tsx:84-113 | In the shown list, reports with equal keys appear in the order they had among the reports that passed the filters. |
| Reports.StableSortIsUnique | src/pages/admin/Reports.tsx:101-113 | Any list that is sorted and keeps every key's reports in input order equals the modelled sort. |
| Reports.SortFilterCommute | src/pages/admin/Reports.tsx:84-113 | Sorting then filtering gives the same list as filtering then sorting. |
| Reports.ReverseDirection | src/pages/admin/Reports.tsx:106-111 | When no two reports share a key, the descending order is exactly the reverse of the ascending order. |
| Reports.NextSort | src/pages/admin/Reports.tsx:74-81 | Clicking the current column keeps it and flips the direction. Clicking another column selects it, ascending. |
| Reports.SameHeaderTwice | src/pages/admin/Reports.tsx:75-76 | Clicking the current column twice restores the sort state. |
| Reports.NewHeaderTwice | src/pages/admin/Reports.tsx:77-79 | Clicking a new column twice sorts it descending. |
| Reports.ReportsView.constructor | src/pages/admin/Reports.tsx:69-72 | Initial state: empty search, status "all", sorted by "date", descending. |
| Reports.ReportsView.HandleSort | src/pages/admin/Reports.tsx:74-81 | The new sort field and direction are `NextSort` of the old ones. The search and the status filter are unchanged. |
| Reports.ReportsView.SetSearchQuery | src/pages/admin/Reports.tsx:255 | Typing replaces the search text and nothing else. |
| Reports.ReportsView.SetStatusFilter | src/pages/admin/Reports.tsx:258 | Choosing a status replaces the status filter and nothing else. |
| Reports.InitialQueryKeepsAll | src/pages/admin/Reports.tsx:88-95 | With an empty search and status "all", every report passes the filters, in order. |
| Reports.StatusFilterExample | src/pages/admin/Reports.tsx:95 | Take three reports with statuses pending, verified and pending. Filtering them on "pending" keeps the first and the third, in that order. |
| Users.FilteredTabs | src/pages/admin/Users.tsx:109-111 | Each tab is an order-preserving subsequence of its bucket. Every listed user matches both the search and the role filter, and a user that matches both appears as often as in its bucket. |
| Users.TabMembership | src/pages/admin/Users.tsx:94-111 | A user of a bucket is listed on that bucket's tab exactly when both filters match it. |
| Users.BadgesBounded | src/pages/admin/Users.tsx:156-166 | Each tab's count is at most the size of its bucket. |
| Users.DefaultQueryShowsBuckets | src/pages/admin/Users.tsx:94-111 | With an empty search and role "all", every tab lists its whole bucket. |
| Users.SearchIgnoresCase | src/pages/admin/Users.tsx:96-101 | Two queries that differ only in letter case match the same users. |
| Users.NameOrEmailFound | src/pages/admin/Users.tsx:96-99 | A query that occurs in the name or the email, typed in any case, matches. |
| Complaints.DateFilterRejects | src/pages/admin/Complaints.tsx:97-104 | The date selector rejects a complaint in exactly two cases. "today" rejects it when its date text lacks "hour". "week" rejects it when its date text contains "week". "all", "month" and any other value keep every complaint. |
| Complaints.FilteredTabs | src/pages/admin/Complaints.tsx:106-116 | Each tab is an order-preserving subsequence of its bucket. Every listed complaint matches both the search and the date filter, and a complaint that matches both appears as often as in its bucket. |
| Complaints.TabMembership | src/pages/admin/Complaints.tsx:87-116 | A complaint of a bucket is listed on that bucket's tab exactly when both filters match it. |
| Complaints.BadgesBounded | src/pages/admin/Complaints.tsx:156-166 | Each tab's count is at most the size of its bucket. |
| Complaints.DefaultQueryShowsBuckets | src/pages/admin/Complaints.tsx:97-116 | With an empty search and the date filter on "all" or "month", every tab lists its whole bucket. |
| Complaints.SearchIgnoresCase | src/pages/admin/Complaints.tsx:87-95 | Two queries that differ only in letter case match the same complaints. |
| Complaints.UserNameFound | src/pages/admin/Complaints.tsx:89-93 | A query that occurs in the user's name, typed in any case, matches. |
| Complaints.SearchJohnFound | src/pages/admin/Complaints.tsx:87-95 | The query "JOHN" matches a complaint filed by "John Doe". |
| Complaints.SearchJohnMissed | src/pages/admin/Complaints.tsx:87-95 | The query "john" misses a complaint none of whose searched texts has a j in either case. |
| Complaints.TodayKeepsHours | src/pages/admin/Complaints.tsx:100 | "today" keeps a complaint dated "2 hours ago". |
| Complaints.TodayDropsDays | src/pages/admin/Complaints.tsx:100 | "today" drops a complaint dated "1 day ago". |
| Complaints.WeekDropsWeeks | src/pages/admin/Complaints.tsx:101 | "week" drops a complaint dated "2 weeks ago". |
| JobVacancies.SetField | src/pages/admin/manager/JobVacancies.tsx:75-78 | An input change sets the named form field and keeps the other three. |
| JobVacancies.WithForm | src/pages/admin/manager/JobVacancies.tsx:107 | Spreading the form over a vacancy replaces its four form fields. It keeps its id, status, applicant count and creation date. |
| JobVacancies.ApplyEdit | src/pages/admin/manager/JobVacancies.tsx:104-108 | Editing keeps the length. Every vacancy with the edited id takes the form's fields and keeps its id, status, applicants and date. Every other vacancy is unchanged. |
| JobVacancies.Toggled | src/pages/admin/manager/JobVacancies.tsx:142 | A toggle yields "closed" exactly from "active". Any other status yields "active". |
| JobVacancies.ToggleStatus | src/pages/admin/manager/JobVacancies.tsx:140-143 | Toggling keeps the length. Every vacancy with the id has only its status toggled. Every other vacancy is unchanged. |
| JobVacancies.Remove | src/pages/admin/manager/JobVacancies.tsx:131-132 | Deleting leaves no vacancy with the id. Every other vacancy remains, in its original order. |
| JobVacancies.NewVacancy | src/pages/admin/manager/JobVacancies.tsx:115-121 | A created vacancy carries the given id, the form's fields, status "active", 0 applicants and the given date. |
| JobVacancies.NextIdAsWritten | src/pages/admin/manager/JobVacancies.tsx:116 | The component's new id, the list length plus one, exceeds the length. |
| JobVacancies.CreateAsWritten | src/pages/admin/manager/JobVacancies.tsx:114-122 | The create branch as the code writes it appends exactly one vacancy, with id length plus one, after the unchanged list. |
| JobVacancies.MaxId | src/pages/admin/manager/JobVacancies.tsx:116 | The largest id in the list, or 0 for an empty list. It bounds every id and is one of them unless it is 0. |
| JobVacancies.FreshId | src/pages/admin/manager/JobVacancies.tsx:116 | The corrected new id is positive and differs from every id in the list. |
| JobVacancies.Create | src/pages/admin/manager/JobVacancies.tsx:114-122 | Creating appends exactly one new vacancy, with the fresh id, after the unchanged list. |
| JobVacancies.ToggleTwice | src/pages/admin/manager/JobVacancies.tsx:142 | Toggling the same id twice restores every vacancy whose status was "active" or "closed". A matching vacancy with any other status ends "closed". |
| JobVacancies.EditIdempotent | src/pages/admin/manager/JobVacancies.tsx:107 | Submitting the same edit twice gives the same list as submitting it once. |
| JobVacancies.RemoveAbsent | src/pages/admin/manager/JobVacancies.tsx:132 | Deleting an id that no vacancy has leaves the list unchanged. |
| JobVacancies.RemoveCount | src/pages/admin/manager/JobVacancies.tsx:132 | Deleting removes exactly as many vacancies as carry the id. |
| JobVacancies.EditToggleKeepIds | src/pages/admin/manager/JobVacancies.tsx:104-143 | Editing and toggling keep ids unique. |
| JobVacancies.RemoveKeepsIds | src/pages/admin/manager/JobVacancies.tsx:131-132 | Deleting keeps ids unique. |
| JobVacancies.CreateKeepsIds | src/pages/admin/manager/JobVacancies.tsx:114-122 | Creating with the fresh id keeps ids unique. |
| JobVacancies.FreshIdAgreesWhileDense | src/pages/admin/manager/JobVacancies.tsx:116 | While the ids are exactly 1..n in order, the fresh id equals the component's length plus one. |
| JobVacancies.NextIdAsWrittenCollides | src/pages/admin/manager/JobVacancies.tsx:116-122 | Start from unique ids 1, 2, 3, delete 1 and create as the code writes it (`CreateAsWritten`): the list then has two vacancies with id 3. |
| JobVacancies.VacancyManager.constructor | src/pages/admin/manager/JobVacancies.tsx:63-73 | Initial state: the seed list, dialog closed, not editing, no current vacancy, empty form. |
| JobVacancies.VacancyManager.HandleInputChange | src/pages/admin/manager/JobVacancies.tsx:75-78 | The form becomes `SetField` of the old form. Nothing else changes. |
| JobVacancies.VacancyManager.OpenNewVacancyForm | src/pages/admin/manager/JobVacancies.tsx:80-89 | Clears the form, sets "not editing" and opens the dialog. The list is unchanged. |
| JobVacancies.VacancyManager.OpenEditVacancyForm | src/pages/admin/manager/JobVacancies.tsx:91-101 | Copies the vacancy's four fields into the form, remembers the vacancy, sets "editing" and opens the dialog. |
| JobVacancies.VacancyManager.SetOpen | src/pages/admin/manager/JobVacancies.tsx:154 | The dialog's open flag takes the value. Nothing else changes. |
| JobVacancies.VacancyManager.HandleSubmit | src/pages/admin/manager/JobVacancies.tsx:103-129 | In edit mode with a current vacancy, the list becomes `ApplyEdit` with its id. Otherwise it becomes `Create` with the form and the given date. The dialog always ends closed, and unique ids stay unique. |
| JobVacancies.VacancyManager.DeleteVacancy | src/pages/admin/manager/JobVacancies.tsx:131-138 | The list becomes `Remove` of the old list. Unique ids stay unique, and the dialog state is unchanged. |
| JobVacancies.VacancyManager.ToggleVacancyStatus | src/pages/admin/manager/JobVacancies.tsx:140-148 | The list becomes `ToggleStatus` of the old list. Unique ids stay unique, and the dialog state is unchanged. |
| JobRequests.StatusOf | src/pages/admin/manager/JobRequests.tsx:94 | A decision sets "accepted" or "rejected", never "pending". |
| JobRequests.SetStatus | src/pages/admin/manager/JobRequests.tsx:95-97 | The update keeps length and order. Every request with the id takes the new status and keeps every other field. Every other request is unchanged. |
| JobRequests.SetStatusIdempotent | src/pages/admin/manager/JobRequests.tsx:96 | Applying the same update twice equals applying it once. |
| JobRequests.SetStatusAbsent | src/pages/admin/manager/JobRequests.tsx:95-97 | An update for an id that no request has leaves the list unchanged. |
| JobRequests.SetStatusMoves | src/pages/admin/manager/JobRequests.tsx:95-97 | After an update, a request has the new status exactly when it had it before or carries the id. |
| JobRequests.RejectSecondExample | src/pages/admin/manager/JobRequests.tsx:95-97 | Rejecting request 2 of requests 1, 2 and 3 changes only request 2's status. |
| JobRequests.NoticeFor | src/pages/admin/manager/JobRequests.tsx:99-113 | There is no notification exactly when no request has the id. Otherwise it carries the decision, plus the applicant name and job title of the first request with the id in the list as it was before the update. |
| JobRequests.RowActions | src/pages/admin/manager/JobRequests.tsx:188-225 | A row always offers the profile and SMS buttons. It offers accept and reject exactly when the request is pending. |
| JobRequests.OfferedDecisionLeavesPending | src/pages/admin/manager/JobRequests.tsx:203-225 | A decision made from a row's buttons applies only to a pending request, and moves it to "accepted" or "rejected". |
| JobRequests.Preview | src/pages/admin/manager/JobRequests.tsx:161-170 | The preview shows the first min(3, n) skills. It shows a "+N more" count exactly when there are more than three skills, and the shown skills plus N account for all n. |
| JobRequests.RequestBoard.constructor | src/pages/admin/manager/JobRequests.tsx:85-87 | Initial state: the seed requests, profile closed, no applicant selected. |
| JobRequests.RequestBoard.ViewApplicantProfile | src/pages/admin/manager/JobRequests.tsx:89-92 | Selects the applicant and opens the profile. The requests are unchanged. |
| JobRequests.RequestBoard.CloseProfile | src/pages/admin/manager/JobRequests.tsx:244 | Closes the profile. The requests and the selection are unchanged. |
| JobRequests.RequestBoard.UpdateRequestStatus | src/pages/admin/manager/JobRequests.tsx:94-114 | The requests become `SetStatus` of the old list. The returned notification is `NoticeFor` the old list. The profile dialog is unchanged. |

## Left out

- Rendering is not modelled: tables, cards, tabs, icons, the charts and the pie-label percentage of the Reports screen. The badge variants (`StatusBadge`, `PriorityBadge`) are left out too. None of these holds list logic.
- The `toast` notifications of the Job Vacancies handlers are not modelled; they have no effect on state. On the Job Requests screen the notification is the returned `Notice` value.
- `sendSMS` is not modelled; it only shows a notification. `RowActions` records that the button is offered.
- The clock is a parameter: `HandleSubmit` takes the creation date as `today` instead of reading it.
- React state updates are modelled as sequential state changes. Batching and re-rendering are not modelled. `NoticeFor` reads the list as it was before the update, as `requests.find` does.
- `toLowerCase` is modelled on ASCII letters only; Unicode case mapping is not.
- The comparator's `<` and `>` are modelled on text fields only. A sort field that reports do not have reads as `undefined` for every report; the model uses the empty text for it, which compares as equal to itself, as `undefined` does.
- Strings.Less: compares characters by code point, where JavaScript's `<` compares UTF-16 code units; the two orders differ for characters above U+FFFF (a surrogate pair sorts before U+E000..U+FFFF in JavaScript, after them here), so report fields holding such characters may be ordered differently.
- Ids are unbounded integers. JavaScript numbers lose precision above 2^53, which the model does not capture.
- The seed data arrays are not modelled. The three tab buckets of the Users and Complaints screens are separate seed arrays in the code, not a partition computed from one list, so there is no bucketing function to model.
- The search and role or date setters of the Users and Complaints screens are not modelled as state. Those screens are pure, so their query state is a parameter of `FilteredTabs`.
- The date selector does not compare dates: it tests words in the relative-time text ("hour", "week"), and the model follows the code.
- JobVacancies.Create: appends the new vacancy with `FreshId`, not with the code's length plus one; `CreateAsWritten` models the code's version (see Findings).
- JobVacancies.VacancyManager.HandleSubmit: creates with `FreshId` (largest id plus one), not with the code's length plus one, which can repeat an id (see Findings). The code's id is modelled as `NextIdAsWritten`.

## Findings

| source | as written | input that shows it | evidently intended | confidence | as-written member | corrected member |
|---|---|---|---|---|---|---|
| src/pages/admin/manager/JobVacancies.tsx:116 | a new vacancy gets id `vacancies.length + 1` | vacancies with ids 1, 2, 3; delete id 1; create a vacancy: it gets id 3, which vacancy 3 already has, so edit, delete and toggle by id then act on both | an id no existing vacancy has, so ids stay unique | not executed | JobVacancies.NextIdAsWrittenCollides | JobVacancies.FreshId |
