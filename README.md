# JobTracker: the list query, the store, the validators and the session

JobTracker is a small React client for keeping track of job applications. This
project models the logic that runs underneath its pages and proves properties
of that model:

- **the application-list query** of the `Applications` page (`applyAll`).
  The steps are:
  - a case-insensitive search on company or title;
  - an exact job-type filter and an exact status filter, each skipped when set
    to "All";
  - an optional stable sort, by company or newest applied date first;
  - five-row pagination, with the Previous/Next clamps and the reset to page 1
    when a query input changes.
- **the application store** (`AppsProvider`): adding prepends a record with an
  id, updating merges fields into the records with that id, and deleting
  filters them out. Both the provider in `src/App.jsx` and the reduced one in
  `src/context/AppsContext.jsx` are covered.
- **the two form validators** (login, add application) and **the dashboard
  figures** (the four status counts and the last five records).
- **the fake session** (`AuthProvider`): any credentials sign in, and the
  role is "manager" for exactly one address.

Modules, one per file:

- `Wrappers`: `Option`.
- `Sequences`: `filter` and subsequences.
- `Text`: JavaScript `trim`, ASCII `toLowerCase`, `includes`, and the string
  order used in place of `localeCompare`.
- `Records`: the record, the add payload and the update payload with its
  spread semantics.
- `Store`: the store class and its list functions.
- `Sorting`: the comparators, and the in-place stable insertion sort on an
  array, specified by `StableSort` on sequences.
- `Query`: the search-and-filter pipeline and `ApplyAll`.
- `Pagination`: `totalPages`, JavaScript `slice` and `pageItems`.
- `ApplicationsPage`: the list view's state class.
- `Dashboard`: the dashboard figures.
- `Forms`: the two validators.
- `Auth`: the session state machine and class.
- `Scenarios`: concrete behaviour and how the parts fit together.

Two details of the code decide behaviour a reader might not expect:

- **A missing applied date sorts as `"1970-01-01"`**. A record dated before
  1970 therefore sorts below an undated one in the newest-first order
  (`Scenarios.MissingDateIsEpoch`). The empty string the form stores for
  "no date" is falsy, so it is treated like a missing date too.
- **The search text is trimmed only to test whether it is blank.** The text
  that is matched is the untrimmed, lowercased search, so "acm " does not find
  "Acme" (`Scenarios.SearchIsNotTrimmed`).

## Model

| member | source | states |
|---|---|---|
| Sequences.Filter | src/App.jsx:298 | `s.filter(p)`: never longer than `s`; Sequences.FilterIsSubsequence, FilterMembers and FilterCount state that it keeps exactly the elements passing `p`, in order, each as often as in `s` |
| Records.WithId | src/App.jsx:76 | `{ id, ...app }` carries the given id, and dropping the id gives back the payload |
| Records.Merge | src/App.jsx:80 | `{ ...a, ...updated }`: each field the update carries replaces the record's, the others are kept; its properties are the rows Records.MergeEmpty, MergeIdempotent and MergeCombine |
| Records.MergeEmpty | src/App.jsx:80 | spreading an update with no fields leaves a record unchanged |
| Records.MergeIdempotent | src/App.jsx:80 | applying the same `{ ...a, ...updated }` twice equals applying it once |
| Records.MergeCombine | src/App.jsx:80 | two successive updates equal one update with the later fields overriding the earlier ones |
| Records.JobTypeNamesDistinct | src/App.jsx:236-241 | the four job-type option texts are distinct and none of them is "All" |
| Records.StatusNamesDistinct | src/App.jsx:247-252 | the four status option texts are distinct and none of them is "All" |
| Store.Prepended | src/App.jsx:76 | `[{ id, ...app }, ...prev]`; stated by Store.AddShape |
| Store.Updated | src/App.jsx:80 | `prev.map(a => a.id === id ? { ...a, ...updated } : a)`; stated by Store.UpdatedAt |
| Store.Deleted | src/App.jsx:84 | `prev.filter(a => a.id !== id)`; stated by Store.DeleteRemoves |
| Store.AddShape | src/App.jsx:76 | after adding, the list is one longer, its head is the new record with the given id, and its tail is the previous list |
| Store.UpdatedAt | src/App.jsx:80 | updating keeps the length and the order; a record with the id becomes the merge of itself and the update, and every other record is unchanged |
| Store.UpdateAbsent | src/App.jsx:80 | updating an id no record has changes nothing |
| Store.DeleteRemoves | src/App.jsx:84 | after deleting, no record has the id; the result is a subsequence of the list; every other record occurs exactly as often as before; a record is kept iff it was there and has another id |
| Store.DeleteAbsent | src/context/AppsContext.jsx:17 | deleting an id no record has leaves the list unchanged |
| Store.AddThenDelete | src/context/AppsContext.jsx:11-18 | adding with a fresh id and then deleting that id restores the original list |
| Store.DeleteAfterUpdate | src/App.jsx:79-85 | deleting an id after an update that does not touch ids gives the same list as deleting alone |
| Store.UpdateEmpty | src/App.jsx:80 | updating with an object that has no fields leaves the whole list unchanged |
| Store.UpdateTwice | src/App.jsx:79-81 | two successive updates of one id, the first keeping the id, equal one update with the combined fields, the later ones overriding |
| Store.UpdateIdempotent | src/App.jsx:79-81 | repeating an update that keeps the id leaves the list as after the first update |
| Store.AddKeepsUnique | src/App.jsx:76 | when no two records share an id and the new id is fresh, no two records share an id after adding |
| Store.FilterKeepsUnique | src/App.jsx:84 | keeping some records of a list with unique ids leaves the ids unique |
| Store.DeleteKeepsUnique | src/App.jsx:83-85 | deleting keeps the ids unique |
| Store.DeletePresent | src/App.jsx:83-85 | with unique ids, deleting an id that some record has removes exactly one record |
| Store.UpdateKeepsUnique | src/App.jsx:79-81 | with unique ids, an update that does not set `id` keeps the ids unique |
| Store.UpdateChangesAtMostOne | src/App.jsx:79-81 | with unique ids, an update keeps the length and changes at most one position |
| Store.AppsProvider.constructor | src/context/AppsContext.jsx:8 | the reduced store starts with the empty list |
| Store.AppsProvider.Restored | src/App.jsx:64-69 | the full store starts with the list it is given, which stands for what storage held |
| Store.AppsProvider.AddApp | src/App.jsx:75-77 | the new list is the new record followed by the old list: one longer, head carrying the id, tail unchanged; unique ids stay unique when the id is fresh; `addApplication` in src/context/AppsContext.jsx:11-13 is the same operation |
| Store.AppsProvider.UpdateApp | src/App.jsx:79-81 | the new list has the old length; each position holds the merged record when its id matches and the old record otherwise; with unique ids at most one position changes, and an update that does not set `id` keeps them unique |
| Store.AppsProvider.DeleteApp | src/App.jsx:83-85 | the new list has no record with the id, is a subsequence of the old list, and equals the old list when the id was absent; with unique ids they stay unique and a present id removes exactly one record; `deleteApplication` in src/context/AppsContext.jsx:16-18 is the same operation |
| Text.Trim | src/App.jsx:296 | `s.trim()`, removing leading and trailing white space; stated by Text.TrimEmptyIffBlank |
| Text.Lower | src/App.jsx:297 | `s.toLowerCase()` on ASCII letters; stated by Text.LowerKeepsBlankness and Text.LowerIdempotent |
| Text.StrLe | src/App.jsx:302 | the order `localeCompare` gives, as lexicographic order on characters; stated by Text.StrLeTotal, StrLeTransitive and StrLeAntisymmetric |
| Text.TrimEmptyIffBlank | src/App.jsx:296 | `s.trim()` is empty exactly when every character of `s` is JavaScript white space or a line terminator |
| Text.Includes | src/App.jsx:298 | `hay.includes(needle)` holds exactly when `needle` occurs at some position of `hay` |
| Text.IncludesChar | src/App.jsx:154 | `email.includes("@")` holds exactly when the character '@' is in the email |
| Text.LowerKeepsBlankness | src/App.jsx:296-297 | lowercasing neither creates nor removes white space |
| Text.LowerIdempotent | src/App.jsx:297-298 | lowercasing twice is lowercasing once |
| Text.StrLeTotal | src/App.jsx:302 | any two company names are comparable |
| Text.StrLeTransitive | src/App.jsx:302 | the string order is transitive |
| Text.StrLeAntisymmetric | src/App.jsx:302 | two strings ordered both ways are equal |
| Sorting.DateKey | src/App.jsx:304-305 | `appliedDate \|\| "1970-01-01"`: the date, or the epoch when it is missing or empty; its effect is shown by Scenarios.MissingDateIsEpoch |
| Sorting.Le | src/App.jsx:302-306 | "the comparator returns at most 0": company ascending, or date newest first; stated by Sorting.LeTotal, LeTransitive and LeTie |
| Sorting.StableSort | src/App.jsx:302-307 | `out.sort(cmp)` as a stable insertion sort; stated by Sorting.StableSortSorted, StableSortPermutes and StableSortStable |
| Sorting.LeTotal | src/App.jsx:302-307 | for either comparator, one of any two records may precede the other |
| Sorting.LeTransitive | src/App.jsx:302-307 | each comparator's "may precede" relation is transitive |
| Sorting.LeTie | src/App.jsx:302-307 | the comparator reports a tie exactly when the compared keys (company, or date with the 1970-01-01 default) are equal |
| Sorting.InsertLastPermutes | src/App.jsx:302-307 | one insertion step adds exactly the inserted record |
| Sorting.InsertLastSorted | src/App.jsx:302-307 | one insertion step keeps a sorted list sorted |
| Sorting.InsertLastTies | src/App.jsx:302-307 | one insertion step puts the new record after all records that tie with it |
| Sorting.StableSortSorted | src/App.jsx:302-307 | the sorted list is ordered by the comparator: company ascending, or date newest first |
| Sorting.StableSortPermutes | src/App.jsx:302-307 | the sorted list is a permutation of its input |
| Sorting.StableSortStable | src/App.jsx:302-307 | for every key, the records with that key appear in the same relative order before and after sorting |
| Sorting.StableSortOfSorted | src/App.jsx:302-307 | a list that is already ordered is left as it is |
| Sorting.InsertAt | src/App.jsx:302 | one pass of the in-place sort: the first i+1 cells become the insertion of cell i into the first i, and the cells after i are untouched |
| Sorting.SortInPlace | src/App.jsx:302-307 | `out.sort(cmp)` rearranges the array in place into the stable sort of its old contents |
| Sorting.SortArray | src/App.jsx:302-307 | sorting the copy `out` gives the stable sort of the list |
| Query.Retained | src/App.jsx:296-301 | a record passes the search, the type filter and the status filter; stated by Query.KeptMembers and FilterSteps |
| Query.Kept | src/App.jsx:296-301 | the records passing all three tests, in stored order; stated by Query.KeptMembers |
| Query.Pipeline | src/App.jsx:293-309 | what `applyAll(items)` returns; stated by Query.PipelineCorrect and Query.ApplyAll |
| Query.KeptMembers | src/App.jsx:296-301 | the filtered list is a subsequence of the input; a record is kept exactly when it passes search, type filter and status filter, and each kept record occurs as often as in the input |
| Query.FilterSteps | src/App.jsx:296-301 | the three guarded `out = out.filter(...)` steps, in order, select exactly the records that pass all three tests |
| Query.PipelineCorrect | src/App.jsx:293-309 | the result holds exactly the passing records, each as often as stored; with a sort mode it is ordered and ties keep their order; without one it is the filtered list in stored order |
| Query.ApplyAll | src/App.jsx:293-309 | the step-by-step `applyAll` returns the filtered, optionally stably sorted list |
| Query.InitialListsAll | src/App.jsx:284-287 | with the initial inputs (empty search, "All", "All", no sort) every stored record is listed in stored order |
| Query.SearchCaseInsensitive | src/App.jsx:296-298 | two search texts equal up to ASCII case select the same records |
| Query.SearchLowercased | src/App.jsx:297-298 | a search typed in lowercase selects the same records as the search as typed |
| Query.TypeFilterExact | src/App.jsx:300 | choosing a job type keeps exactly the records of that type |
| Query.StatusFilterExact | src/App.jsx:301 | choosing a status keeps exactly the records with that status |
| Pagination.TotalPages | src/App.jsx:313 | the page count is at least 1, is 1 for an empty list, and is otherwise the least n with total <= 5n, that is `ceil(total / 5)` |
| Pagination.Slice | src/App.jsx:314 | `s.slice(start, end)` with clamped positions; stated by Pagination.SlicePosition and PageItems |
| Pagination.SlicePosition | src/App.jsx:314 | a `slice` position is clamped into `[0, length]` |
| Pagination.PageItems | src/App.jsx:314 | a page has at most 5 rows, is empty past the last page, and for page >= 1 is the window from row 5(page-1) to row 5·page, cut at the end |
| Pagination.PagesArePrefix | src/App.jsx:314 | pages 1..n laid end to end are the first 5n rows |
| Pagination.PagesCoverList | src/App.jsx:313-314 | pages 1..totalPages laid end to end reproduce the filtered list exactly |
| Pagination.TwelveRows | src/App.jsx:313-314 | twelve rows make three pages, the third holding the last two rows and the fourth none |
| ApplicationsPage.ApplicationsView.constructor | src/App.jsx:284-288 | the view starts with an empty search, both filters on "All", no sort and page 1 |
| ApplicationsPage.ApplicationsView.SetSearch | src/App.jsx:291 | setting the search changes only the search, and the page becomes 1 exactly when the search changed |
| ApplicationsPage.ApplicationsView.SetFilterType | src/App.jsx:291 | setting the type filter changes only that input, and the page becomes 1 exactly when it changed |
| ApplicationsPage.ApplicationsView.SetFilterStatus | src/App.jsx:291 | setting the status filter changes only that input, and the page becomes 1 exactly when it changed |
| ApplicationsPage.ApplicationsView.SetSortMode | src/App.jsx:291 | setting the sort mode changes only that input, and the page becomes 1 exactly when it changed |
| ApplicationsPage.ApplicationsView.Render | src/App.jsx:311-314 | a render gives the result count, `totalPages` for it (at least 1), and the rows of the current page: at most 5, none past the last page |
| ApplicationsPage.ApplicationsView.Previous | src/App.jsx:386 | Previous moves one page back and never below page 1 |
| ApplicationsPage.ApplicationsView.Next | src/App.jsx:387 | Next sets the page to the smaller of the page count of the current result and the page plus one: one page on when there is a further page, back to the last page when the view is past it (as after a deletion, see Scenarios.StalePageAfterDelete), never past the page count, and at least 1 |
| Dashboard.CountStatus | src/App.jsx:398-401 | `apps.filter(a => a.status === s).length`; stated by Dashboard.CountIsMultiplicity and CountsPartition |
| Dashboard.CountsPartition | src/App.jsx:398-401 | the four status counts add up to the number of applications |
| Dashboard.CountAfterAdd | src/App.jsx:398-401 | adding an application raises the count of its status by one and leaves the other counts as they were |
| Dashboard.CountIsMultiplicity | src/App.jsx:398-401 | the count for a status is the multiplicity of that status in the sequence of the records' statuses |
| Dashboard.Summarize | src/App.jsx:397-402 | the total is the length; `applied`, `interview`, `selected` and `rejected` are the counts of Applied, Interview Scheduled, Selected and Rejected; they add up to the total; and the last five are the first min(5, length) records, newest first |
| Forms.ValidateLogin | src/App.jsx:152-158 | the email error is set exactly when the email lacks '@' or is shorter than 5, the password error exactly when the password is shorter than 6, and validation passes exactly when neither is set |
| Forms.ValidateAddForm | src/App.jsx:196-205 | each required-field error is set exactly when its field is blank after trimming (company, title, location) or empty (job type, status), and validation passes exactly when no error is set |
| Auth.Step | src/context/AuthContext.jsx:11-17 | the session after a login or a logout; stated by Auth.LoginRecordsEmail, PasswordIgnored, LoginIdempotent and LogoutSignsOut |
| Auth.RoleFor | src/context/AuthContext.jsx:12 | the role is "manager" exactly when the email is "hrmanager@gmail.com", compared case-sensitively, and "user" otherwise |
| Auth.LoginRecordsEmail | src/context/AuthContext.jsx:11-13 | after login the session is signed in with exactly the given email and the role it implies |
| Auth.PasswordIgnored | src/context/AuthContext.jsx:11-13 | the password has no effect on the session |
| Auth.LoginIdempotent | src/context/AuthContext.jsx:11-13 | logging in twice with the same email gives the same session as logging in once |
| Auth.LogoutSignsOut | src/context/AuthContext.jsx:17 | logout signs out from any session |
| Auth.AuthProvider.constructor | src/context/AuthContext.jsx:8 | the session starts signed out |
| Auth.AuthProvider.Restored | src/App.jsx:28-33 | the full provider starts from the session it is given, which stands for what storage held |
| Auth.AuthProvider.Login | src/App.jsx:40-46 | login sets the session to the signed-in user with the given email and its role, and returns that user; the login in src/context/AuthContext.jsx:11-14 sets the same session |
| Auth.AuthProvider.Logout | src/App.jsx:48-50 | logout sets the session to signed out, as the logout in src/context/AuthContext.jsx:17 does |
| Scenarios.SearchFindsAcme | src/App.jsx:296-298 | searching "acm" over Acme/Engineer and Globex/Sales keeps only Acme |
| Scenarios.SearchIsNotTrimmed | src/App.jsx:296-298 | "acm" finds Acme but "acm " does not: the trailing blank stays in the matched text |
| Scenarios.CompanySortExample | src/App.jsx:302 | Zeta, Acme, Mono sorted by company come out as Acme, Mono, Zeta |
| Scenarios.DateSortExample | src/App.jsx:303-307 | undated, 2023-01-01, 2024-06-01 sorted newest first come out as 2024-06-01, 2023-01-01, undated |
| Scenarios.MissingDateIsEpoch | src/App.jsx:304-306 | a record dated 1969-12-31 sorts after an undated one, because a missing date counts as 1970-01-01 |
| Scenarios.StalePageAfterDelete | src/App.jsx:291 | with six records, Next reaches page 2; deleting its only record leaves the view on page 2 of a one-page list, which renders nothing, because the page reset does not watch the list; Next then returns to page 1 |
| Scenarios.AddThenList | src/App.jsx:76 | with the initial query, a record added under a fresh id is listed first, followed by the earlier list, and exactly one listed record has that id |

## Left out

- Browser storage: the `localStorage` reads and writes of the session and of
  the list (src/App.jsx:28-38, 63-73) are I/O. The `Restored` constructors
  take the loaded value as a parameter. Unparsable stored JSON, which the
  code turns into the empty list or a signed-out session, is not modelled.
- Id generation: `Date.now()` is a clock, so the id is a parameter of
  `AddApp`. Where uniqueness matters, lemmas require the id to be fresh.
  `addApp` does not check freshness, so unique ids are a guarantee of the
  operations under that condition, not an invariant of `AppsProvider`.
- Records.WithId: `{ id: Date.now(), ...app }` spreads the payload after the
  id, so a payload carrying its own `id` would override the generated one.
  `Draft` has no id field, and no caller passes one (src/App.jsx:210-211,
  src/pages/AddApplication.jsx:13), so that override is not modelled.
- `window.confirm` before a delete and the `setTimeout` that clears the
  success message (src/App.jsx:215, 317) are browser side effects. A confirmed
  delete is `DeleteApp`.
- Rendering and routing: JSX, styles, `Router`/`Routes`, `PrivateRoute`,
  `Navbar` and the pages under src/pages/ only display state or forward it.
- The submit handlers (src/App.jsx:160-165, 207-216) are glue. They call the
  validator, then `login` or `addApp`. Turning the form's strings into a
  record is not modelled: the record keeps job type and status as enums,
  because the form's selects only offer the four option texts.
- `updateApp` spreads an arbitrary object. The model's update carries only
  the record's own fields, so updates that add unknown keys are not modelled.
- Text:
  - `localeCompare` is modelled as lexicographic order on characters, not as
    locale collation.
  - `toLowerCase` is modelled as ASCII lowercasing, without Unicode case
    mapping.
  - String lengths count characters, not UTF-16 code units.
- Dates: `new Date(...)` parsing is not modelled. Dates are taken to be
  well-formed `YYYY-MM-DD` strings and compared as strings, which for such
  strings is chronological order. Malformed dates, for which the comparator
  yields NaN, are not modelled.
- React scheduling:
  - The effect that resets the page runs after a render, so the view briefly
    renders the old page with the new query. The model performs the reset
    inside the setter.
  - React compares dependencies by `Object.is`, and the setter compares
    values the same way.
  - `Next` recomputes the page count that the clicked render displayed.
  - Memoisation and re-rendering are not modelled.
- src/context/AppsContext.jsx has no update operation, so `UpdateApp` models
  src/App.jsx only.
