# User management console: list pipeline and optimistic mutations

This project is a Dafny model of the client-side core of a browser console
that manages a list of user records held by a remote REST collection. It
covers four parts:

- **The user table's view.** The table filters the cached users by a
  case-insensitive name search and by an exact company. It then stable-sorts
  them by lower-cased email, counts pages of five, clamps the requested page
  from above and slices out the visible window. It also derives the list of
  company options and computes avatar initials.
- **The table's page state.** "Previous" and "next" move the page. A new
  search or a new company choice resets it to 1, and so does a collection
  that grows.
- **The three optimistic mutations: create, edit and delete.** Each one
  captures the cached list, writes a patched list at once and logs the
  intent. It restores the captured list if the remote call fails, and it
  always invalidates the cache entry afterwards.
- **The small state containers.** These are the activity log, the
  dark-mode flag, the current-user store, and the navbar's rule that picks
  user 1 as the current user.

Everything is modelled as immutable datatypes and pure functions. The
remote call's outcome, `crypto.randomUUID()`, `Date.now()` and the email
format check are parameters.

Modules and the source they follow:

| module | file | models |
|---|---|---|
| `Users` | `users.dfy` | the `User` record of `lib/api.ts` |
| `Text` | `text.dfy` | `toLowerCase`/`toUpperCase` (ASCII), `trim`, `includes`, string `<` |
| `Seqs`, `Optional` | `seqs.dfy`, `optional.dfy` | `filter`, `find`, subsequence, first index; `undefined` as `Option` |
| `Initials` | `initials.dfy` | `initials`, shared by the table and the navbar |
| `EmailSort` | `email_sort.dfy` | the email comparator and the stable sort |
| `Pagination` | `pagination.dfy` | `totalPages`, `pageClamped`, `slice`, `paged` |
| `TableView` | `table_view.dfy` | company options, both filters, the whole projection |
| `TableSession` | `table_session.dfy` | page navigation and the page-reset effects |
| `QueryCache` | `query_cache.dfy` | the `["users"]` entry: data and a stale flag |
| `Optimistic` | `optimistic.dfy` | `onMutate` / `onError` / `onSettled`, shared by all mutations |
| `UserForm` | `user_form.dfy` | the form schema, the create and edit mutations |
| `DeleteUser` | `delete_user.dfy` | the delete mutation |
| `ActivityLog`, `ThemeStore`, `AuthStore` | `activity_log.dfy`, `theme_store.dfy`, `auth_store.dfy` | the three stores |
| `Navbar` | `navbar.dfy` | the current-user effect and the avatar |

Behaviours of the code worth knowing, each of which the model keeps:

- **The page is clamped from above only.** `components/user-table.tsx:73`
  computes `Math.min(page, totalPages)` with no lower bound. The model
  keeps JavaScript's `slice` with negative bounds, so `Paged` at page 0 is
  empty and at page -1 it reads from the end. `ReachablePageInRange` shows
  that no sequence of events ever requests a page below 1, so the shown page
  always lies in `[1, totalPages]`.
- **A rollback writes back `getQueryData(...) || []`.** The snapshot is
  taken at `components/user-form-dialog.tsx:60` and restored at line 81
  (and likewise in the edit and delete mutations). A mutation that started
  with nothing cached therefore rolls back to an empty list, not to an
  absent entry (`RollbackFromEmptyCache`). When data was cached, the
  rollback is exact.
- **The log is unbounded, and entries are never retracted.** A failed
  mutation keeps its log entry.

One more observation: a company named exactly `all` cannot be picked as a
filter. The sentinel choice `"all"` shows every company instead.

## Model

| member | source | states |
|---|---|---|
| `Initials.Initials` | components/user-table.tsx:14-20 | "U" for an absent or empty name; otherwise one or two characters |
| `Initials.InitialsByPosition` | components/user-table.tsx:14-20 | for a name with a non-space character, the initials are the upper-cased first non-space character, then the upper-cased first character of the last word when there are two or more words |
| `Initials.InitialsOfSpaces` | components/user-table.tsx:19 | a name made only of spaces falls back to its first two characters |
| `Initials.WordsByPosition` | components/user-table.tsx:16-18 | `split(" ").filter(Boolean)` yields at least one word when there is a non-space character; the first word starts at the first non-space and the last word at the last word start; there are two or more words exactly when these differ |
| `TableView.Companies` | components/user-table.tsx:45-48 | company options have no duplicates and no empty names; they are exactly the non-empty companies of the users, in order of first appearance |
| `Text.BlankIffAllSpace` | components/user-table.tsx:52 | `q.trim()` is empty exactly when every character of `q` is white space |
| `Text.IncludesIffOccurs` | components/user-table.tsx:54 | `includes` holds exactly when the query occurs at some offset |
| `TableView.FilterByName` | components/user-table.tsx:52-55 | a blank query keeps everything; otherwise exactly the users whose lower-cased name contains the lower-cased untrimmed query, as an order-preserving subsequence |
| `TableView.FilterByCompany` | components/user-table.tsx:56-58 | "all" keeps everything; otherwise exactly the users with that company name, as an order-preserving subsequence |
| `TableView.Filtered` | components/user-table.tsx:50-60 | the two filters together give an order-preserving subsequence of the data with exactly the users that pass both tests, as many of them as the data holds |
| `EmailSort.Sort` | components/user-table.tsx:62-70 | the sorted list is a permutation of the filtered list; no later user compares strictly before an earlier one; users with equal keys keep their filtered order |
| `EmailSort.SortIsStablePermutation` | components/user-table.tsx:62-70 | same users; ascending is non-decreasing and descending non-increasing by lower-cased email; for every key, the users with that key appear in input order |
| `EmailSort.OrderedMeansMonotone` | components/user-table.tsx:66-67 | the comparator's order is non-decreasing email for "asc" and non-increasing for "desc" |
| `Text.StrLtIsStrictTotalOrder` | components/user-table.tsx:64-67 | string `<` is irreflexive, asymmetric, transitive and total on distinct strings |
| `Pagination.TotalPages` | components/user-table.tsx:72 | at least 1; the least such count whose pages of five hold all rows |
| `Pagination.PageClamped` | components/user-table.tsx:73 | the page is at most the page count and at most the request, and equals one of them |
| `Pagination.ClampedIntoRange` | components/user-table.tsx:72-73 | a request of at least 1 clamps into `[1, totalPages]` |
| `Pagination.Paged` | components/user-table.tsx:74-77 | at most five rows; for page at least 1, the contiguous slice starting at `(page-1)*5` |
| `Pagination.PageZeroIsEmpty` | components/user-table.tsx:73-76 | with no lower clamp, page 0 shows no rows |
| `Pagination.NegativePageReadsFromTheEnd` | components/user-table.tsx:73-76 | with no lower clamp, page -1 of twelve rows would show rows 3 to 7 |
| `Pagination.TwelveRowsExample` | components/user-table.tsx:72-77 | twelve rows give three pages; page 4 clamps to page 3, which shows rows 11 and 12 |
| `Pagination.PagesArePrefix` | components/user-table.tsx:74-77 | pages 1 to k together are the first 5k rows |
| `Pagination.PagesCoverAllRows` | components/user-table.tsx:72-77 | pages 1 to totalPages together give back the sorted rows, each of those pages non-empty when there are rows |
| `TableView.Project` | components/user-table.tsx:45-77 | the rendered page count is computed from the filtered rows; the shown page is at most the count and the request, and at least 1 for a request of at least 1; at most five rows, all from the filtered users |
| `TableView.ProjectPagesPartitionSorted` | components/user-table.tsx:62-77 | the visible rows are the clamped page's window of the sorted rows, and the pages partition the sorted rows |
| `TableSession.Init` | components/user-table.tsx:31-37 | the table starts with an empty search, every company, ascending order and page 1, and remembers the current row count |
| `TableSession.GoPrev` | components/user-table.tsx:79 | the page goes back by one when above 1 and stays at 1 otherwise, so it never goes below 1; nothing else changes |
| `TableSession.GoNext` | components/user-table.tsx:80 | the page goes forward by one when below the page count and becomes the page count otherwise, so it never exceeds it; it stays at least 1, and nothing else changes |
| `TableSession.SetQuery` | components/user-table.tsx:89-92 | a new search text resets the page to 1 and keeps the other filters |
| `TableSession.SetCompany` | components/user-table.tsx:98-101 | a new company choice resets the page to 1 and keeps the other filters |
| `TableSession.FlipSort` | components/user-table.tsx:116 | the sort button flips the direction and changes nothing else |
| `TableSession.OnLengthChange` | components/user-table.tsx:37-43 | a longer collection resets the page to 1; an equal or shorter one leaves it; the new length is remembered |
| `TableSession.StepKeepsPagePositive` | components/user-table.tsx:79-101 | every transition keeps the requested page at 1 or above |
| `TableSession.ReachablePageInRange` | components/user-table.tsx:72-80 | after any run of events from the first render, the shown page lies in `[1, totalPages]` |
| `TableSession.FirstRenderShowsFirstRows` | components/user-table.tsx:31-77 | the first render shows page 1: the first five users, or all when fewer, in ascending order of lower-cased email |
| `TableSession.AddShowsFirstPage` | components/user-table.tsx:38-43 | when the collection grows, the table shows page 1 |
| `UserForm.Validate` | components/user-form-dialog.tsx:15-20 | accepted exactly when name, phone and company are non-empty and the email is valid; otherwise each failing field is reported |
| `UserForm.MaxId` | components/user-form-dialog.tsx:62 | the result is at least the floor, at least every id, and is either the floor or one of the ids |
| `UserForm.ProvisionalId` | components/user-form-dialog.tsx:62 | the provisional id is at least 102, above every existing id, and one more than the largest of 101 and the ids |
| `UserForm.AddPatch` | components/user-form-dialog.tsx:61-71 | the new record goes first and the rest is the snapshot unchanged; it has the provisional id (hence fresh), the form's four fields, and empty username, website and address |
| `UserForm.EditPatch` | components/user-form-dialog.tsx:99-110 | length, order and ids are kept; records with the target id take the form's four fields and keep username, website and address; other records are unchanged |
| `UserForm.EditAbsentOrRepeated` | components/user-form-dialog.tsx:99-110 | editing an absent id changes nothing; repeating an edit is idempotent |
| `UserForm.CreateUser` | components/user-form-dialog.tsx:50-86 | on success the cache holds the optimistic record in front of the snapshot; on failure exactly the snapshot; either way it is stale and one "Added user <name>" entry is prepended to the log |
| `UserForm.EditUser` | components/user-form-dialog.tsx:88-125 | on success the cache holds the edited snapshot; on failure exactly the snapshot; either way it is stale and one "Edited user <name>" entry is prepended |
| `UserForm.Submit` | components/user-form-dialog.tsx:127-130 | rejected form values change nothing; accepted ones run the mutation for the form's mode and add one log entry |
| `QueryCache.SetQueryData` | components/user-form-dialog.tsx:71 | a manual write replaces the entry's data with the given list and leaves it fresh |
| `QueryCache.Invalidate` | components/user-form-dialog.tsx:84 | invalidation keeps the data and marks it stale |
| `Optimistic.OnMutate` | components/user-form-dialog.tsx:58-79 | the snapshot is the cached list or `[]`; the cache then holds the patched snapshot and is fresh; the entry is prepended to the log |
| `Optimistic.OnError` | components/user-form-dialog.tsx:80-82 | the captured snapshot is written back and the log is untouched |
| `Optimistic.OnSettled` | components/user-form-dialog.tsx:83-85 | the cached data is kept and marked stale |
| `Optimistic.Mutate` | components/user-form-dialog.tsx:58-85 | after apply, confirm or roll back, and invalidate: the entry is stale; the log has gained exactly the one entry on both paths; on failure the cache holds exactly the snapshot, and the original entry when data was cached |
| `Optimistic.RollbackFromEmptyCache` | components/user-form-dialog.tsx:60-82 | a failed mutation that started with nothing cached leaves an empty list |
| `DeleteUser.DeletePatch` | components/delete-user-dialog.tsx:34 | no remaining record has the target id; every other record is kept, in order; the length drops by the number of records with the target id |
| `DeleteUser.DeleteAbsentIsIdentity` | components/delete-user-dialog.tsx:34 | deleting an id nobody has leaves the list unchanged |
| `DeleteUser.DeleteUser` | components/delete-user-dialog.tsx:27-50 | on success no cached record has the id; on failure the cache is exactly the snapshot; either way it is stale and one "Deleted user <name>" entry is prepended |
| `ActivityLog.AddEntry` | stores/activity-log-store.ts:20 | the new entry is first, the previous entries follow unchanged, and the length grows by one |
| `ActivityLog.Clear` | stores/activity-log-store.ts:21 | the log becomes empty |
| `ActivityLog.AddAllNewestFirst` | stores/activity-log-store.ts:19-20 | after n additions the entries are newest first, ahead of the earlier ones, with nothing dropped |
| `ActivityLog.ClearIdempotent` | stores/activity-log-store.ts:19-21 | clearing twice is clearing once, and gives the initial empty log |
| `ThemeStore.SetDark` | stores/theme-store.ts:16 | the flag becomes the given value |
| `ThemeStore.Toggle` | stores/theme-store.ts:17 | the flag is negated |
| `ThemeStore.ToggleInvolutionSetIdempotent` | stores/theme-store.ts:15-17 | two toggles restore the flag; repeating a set changes nothing; the flag starts false |
| `AuthStore.SetUser` | stores/auth-store.ts:18 | the user becomes the given one |
| `AuthStore.LastWriteWins` | stores/auth-store.ts:17-18 | the last set wins; after a set there is a user; the store starts with none |
| `Seqs.FindIndex` | components/navbar.tsx:34 | `find` returns the first position satisfying the test, or none when no position does |
| `Navbar.PickCurrentUser` | components/navbar.tsx:32-37 | a set user is never replaced; nothing happens without data; any change sets the first user with id 1, projected to id, name and email; with no user with id 1 nothing changes |
| `Navbar.PickIsIdempotent` | components/navbar.tsx:32-37 | re-running the effect changes nothing |
| `Navbar.AvatarInitials` | components/navbar.tsx:12-18 | "U" while no user is set; otherwise the same initials rule as the table, at most two characters |

## Left out

- Query library internals: the staleness window, request de-duplication, `cancelQueries` and background refetching. The cache entry is modelled only as its data and a stale flag. A manual write marks it fresh, and invalidation marks it stale. Re-fetching after invalidation is not modelled.
- HTTP calls in `lib/api.ts`: each remote result is a `Confirmed`/`Rejected` parameter. The server's response body is never read by the core.
- `TableSession.Step`: the disabled state of the Prev and Next buttons (`components/user-table.tsx:198` and `:202`) is not modelled; every event is allowed in every state. The model therefore admits more runs than the page, and its invariants hold for the page's runs too.
- Overlapping mutations: the source relies on the framework's asynchronous scheduling, so mutations are modelled one at a time.
- `crypto.randomUUID()` and `Date.now()`: these are parameters of the log entry.
- The email format rule of the schema library: this is an opaque predicate parameter, `emailValid`.
- Unicode case mapping: `toLowerCase`/`toUpperCase` change only ASCII letters here. String `<` compares Dafny characters (code points). JavaScript compares UTF-16 code units, and the two orders differ only for characters outside the Basic Multilingual Plane.
- `Initials.Initials`: characters are code points rather than UTF-16 code units. So when the first or last word starts with a character outside the Basic Multilingual Plane, its `[0]` is not modelled as taking half a surrogate pair (`"Ann 😀x"` gives `"A\uD83D"` in JavaScript and `"A😀"` here).
- Absent `company` objects: the record type declares `company: { name }` as always present, so `company?.name` is modelled as the company name.
- `Math.max` applied to a spread of an extremely long id list (an engine `RangeError`), and ids that are not integers: ids are unbounded integers.
- Persistence of the dark-mode flag to browser storage, and every piece of rendering: markup, dialogs, the activity list display, the theme class effect, and page layout.
- The single-user detail page and its `["user", id]` query: these are outside the list pipeline.
